/** The scrape goroutine's objects: the unresolved buffer, the classifier that
    routes readings, and the tick that drives them. */
module Unresolved {
  import opened Bpf
  import opened Metadata
  import opened Billing
  import opened Kernel
  import opened State
  import opened Sink
  import S = Sink
  import Pressure

  class Buffer {
    var entries: map<FlowKey, Entry>
    var order: seq<FlowKey>
    const state: GlobalState
    const kernel: KernelFlows

    ghost function Abs(): S.Sink
      reads this, state, kernel
    {
      S.Sink(state.Abs(), entries, order, kernel.flows)
    }

    constructor (state: GlobalState, kernel: KernelFlows)
      ensures this.state == state && this.kernel == kernel
      ensures entries == map[] && order == []
    {
      this.state, this.kernel := state, kernel;
      entries, order := map[], [];
    }

    method Capture(key: FlowKey, raw: FlowMetrics, t: Knobs)
      requires Abs().Valid() && t.broken == kernel.broken
      modifies this, state, kernel`flows
      ensures Abs().Valid() && Abs() == S.Capture(old(Abs()), key, raw, t)
    {
      if key !in entries {
        entries := entries[key := Entry(raw, raw, t.now)];
        order := [key] + order;
        EvictOverCap(t);
        return;
      }
      WithoutRemoves(order, key);
      entries := entries[key := Recaptured(entries[key], raw)];
      order := [key] + Without(order, key);
    }

    method EvictOverCap(t: Knobs)
      requires Abs().Valid() && t.broken == kernel.broken
      modifies this, state, kernel`flows
      ensures Abs().Valid() && Abs() == S.EvictOverCap(old(Abs()), t)
    {
      while |entries| > t.cap
        invariant Abs().Valid()
        invariant S.EvictOverCap(Abs(), t) == S.EvictOverCap(old(Abs()), t)
        decreases |order|
      {
        if order == [] {
          return;
        }
        FoldOne(order[|order| - 1], true, t);
      }
    }

    /** foldToUnknown then drop. */
    method FoldOne(key: FlowKey, delKernel: bool, t: Knobs)
      requires Abs().Valid() && key in entries && t.broken == kernel.broken
      modifies this, state, kernel`flows
      ensures Abs().Valid() && Abs() == FoldOut(old(Abs()), key, delKernel, t)
      ensures |order| < old(|order|)
    {
      FoldOutValid(Abs(), key, delKernel, t);
      state.Add(UnknownKey(key), entries[key].total);
      order := Without(order, key);
      entries := entries - {key};
      if delKernel {
        var _ := kernel.Delete(key);
      }
    }

    /** Folds out the expired flows, or on shutdown every flow, leaving the kernel
        entries of a shutdown alone. swept is the order they were met in. */
    method Sweep(force: bool, t: Knobs) returns (ghost swept: seq<FlowKey>)
      requires Abs().Valid() && t.broken == kernel.broken
      modifies this, state, kernel`flows
      ensures Abs().Valid()
      ensures NoDup(swept)
      ensures forall k :: k in swept <==> k in old(entries) && (force || Expired(old(entries)[k], t))
      ensures Abs() == FoldOutAll(old(Abs()), swept, !force, t)
    {
      hide FoldOut, FoldOutAll;
      swept := [];
      var todo := entries.Keys;
      assert Abs() == FoldOutAll(Abs(), [], !force, t) by { FoldOutNone(Abs(), !force, t); }
      while todo != {}
        invariant Abs().Valid()
        invariant todo <= entries.Keys
        invariant NoDup(swept)
        invariant forall k :: k in swept <==> k in old(entries) && k !in todo && (force || Expired(old(entries)[k], t))
        invariant Abs() == FoldOutAll(old(Abs()), swept, !force, t)
        decreases |todo|
      {
        var k :| k in todo;
        if force || Expired(entries[k], t) {
          FoldOutAllSnoc(old(Abs()), swept, k, !force, t);
          FoldOne(k, !force, t);
          swept := swept + [k];
        }
        todo := todo - {k};
      }
    }

    method Resolve(key: FlowKey) returns (found: bool)
      requires Abs().Valid()
      modifies this, state
      ensures Abs().Valid() && Abs() == ResolveBuffered(old(Abs()), key)
      ensures found <==> key in old(entries)
    {
      found := key in entries;
      if found {
        WithoutRemoves(order, key);
        var e := entries[key];
        state.Resolve(key, e.total, e.lastRaw);
        order := Without(order, key);
        entries := entries - {key};
      }
    }
  }

  class Scraper {
    const buffer: Buffer
    const reliever: Pressure.PressureReliever

    constructor (buffer: Buffer, reliever: Pressure.PressureReliever)
      ensures this.buffer == buffer && this.reliever == reliever
    {
      this.buffer, this.reliever := buffer, reliever;
    }

    /** The classifier: a known VM's reading binds whatever was buffered for the
        flow and then takes delta math; an unknown VM's reading is buffered. */
    method Absorb(meta: map<Mac, TenantMeta>, key: FlowKey, raw: FlowMetrics, t: Knobs)
      requires buffer.Abs().Valid() && t.broken == buffer.kernel.broken
      modifies buffer, buffer.state, buffer.kernel`flows
      ensures buffer.Abs().Valid() && buffer.Abs() == AbsorbReading(old(buffer.Abs()), meta, key, raw, t)
    {
      if VMMAC(key) in meta {
        var _ := buffer.Resolve(key);
        buffer.state.ApplyDelta(key, raw);
      } else {
        buffer.Capture(key, raw, t);
      }
    }

    /** The absorb loop over one drained buffer, in the order keys. */
    method AbsorbAll(meta: map<Mac, TenantMeta>, buf: map<FlowKey, FlowMetrics>, t: Knobs)
        returns (ghost keys: seq<FlowKey>)
      requires buffer.Abs().Valid() && t.broken == buffer.kernel.broken
      modifies buffer, buffer.state, buffer.kernel`flows
      ensures buffer.Abs().Valid()
      ensures NoDup(keys) && forall k :: k in keys <==> k in buf
      ensures buffer.Abs() == AbsorbDrain(old(buffer.Abs()), meta, buf, keys, t)
    {
      hide AbsorbReading;
      keys := [];
      var todo := buf.Keys;
      while todo != {}
        invariant buffer.Abs().Valid()
        invariant todo <= buf.Keys && NoDup(keys) && forall k :: k in keys <==> k in buf && k !in todo
        invariant buffer.Abs() == AbsorbDrain(old(buffer.Abs()), meta, buf, keys, t)
        decreases |todo|
      {
        var k :| k in todo;
        AbsorbDrainSnoc(old(buffer.Abs()), meta, buf, keys, k, t);
        Absorb(meta, k, buf[k], t);
        keys := keys + [k];
        todo := todo - {k};
      }
    }

    /** Drain, integrate, expire, relieve. A failed drain changes nothing. */
    method Tick(meta: map<Mac, TenantMeta>, drainFails: bool, t: Knobs, low: nat, high: nat, perPass: int)
      returns (ok: bool, ghost keys: seq<FlowKey>, ghost swept: seq<FlowKey>, ghost victims: set<FlowKey>)
      requires buffer.Abs().Valid() && t.broken == buffer.kernel.broken && reliever.kernel == buffer.kernel
      modifies buffer, buffer.state, buffer.kernel`flows, reliever
      ensures buffer.Abs().Valid() && ok == !drainFails
      ensures !ok ==> buffer.Abs() == old(buffer.Abs())
      ensures ok ==> IsTick(old(buffer.Abs()), meta, old(buffer.kernel.flows), keys, swept, victims, t)
      ensures ok ==> buffer.Abs() == TickResult(old(buffer.Abs()), meta, old(buffer.kernel.flows), keys, swept,
                                                victims, t)
      ensures ok ==> reliever.relieving == Pressure.Relieves(old(reliever.relieving), |old(buffer.kernel.flows)|,
                                                             low, high)
      ensures ok ==> |victims| == Pressure.Asked(old(reliever.relieving), |old(buffer.kernel.flows)|, low, high,
                                                 perPass)
      ensures ok ==> Pressure.NoneNewer(old(buffer.kernel.flows), victims, old(buffer.kernel.flows.Keys) - victims)
    {
      hide AbsorbDrain, FoldOutAll, IsTick, TickResult, ListsExpired;
      keys, swept, victims := [], [], {};
      if drainFails {
        return false, keys, swept, victims;
      }
      var buf := buffer.kernel.flows;
      keys := AbsorbAll(meta, buf, t);
      ghost var w1 := buffer.Abs();
      swept := buffer.Sweep(false, t);
      ghost var w2 := buffer.Abs();
      var picked, _ := reliever.Relieve(buf, low, high, perPass);
      victims := picked;
      TickOf(old(buffer.Abs()), meta, buf, keys, w1, swept, w2, victims, t);
      ok := true;
    }
  }

  lemma TickOf(w: S.Sink, meta: map<Mac, TenantMeta>, buf: map<FlowKey, FlowMetrics>, keys: seq<FlowKey>, w1: S.Sink,
               swept: seq<FlowKey>, w2: S.Sink, victims: set<FlowKey>, t: Knobs)
    requires w.Valid() && NoDup(keys) && (forall k :: k in keys <==> k in buf) && victims <= buf.Keys
    requires w1 == AbsorbDrain(w, meta, buf, keys, t)
    requires NoDup(swept) && forall k :: k in swept <==> k in w1.entries && Expired(w1.entries[k], t)
    requires w2 == FoldOutAll(w1, swept, true, t)
    ensures IsTick(w, meta, buf, keys, swept, victims, t)
    ensures TickResult(w, meta, buf, keys, swept, victims, t) == w2.(kernel := w2.kernel - (victims - t.broken))
  {
  }
}
