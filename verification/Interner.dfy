/** Project ids interned to the compact numbers the kernel maps key on. */
module Interner {

  const TENANT_ID_UNSET := 0

  class TenantInterner {
    var nextId: nat
    var forward: map<string, nat>
    var reverse: map<nat, string>

    /** The two maps are inverse to each other, 0 is never assigned, and every id
        assigned so far lies below nextId. */
    ghost predicate Valid()
      reads this
    {
      && 1 <= nextId && "" !in forward
      && (forall p :: p in forward ==> 0 < forward[p] < nextId && forward[p] in reverse && reverse[forward[p]] == p)
      && (forall i :: i in reverse ==> reverse[i] in forward && forward[reverse[i]] == i)
    }

    /** The id a project has, 0 standing for no project. */
    ghost function IdOf(p: string): nat
      requires p == "" || p in forward
      reads this
    {
      if p == "" then TENANT_ID_UNSET else forward[p]
    }

    constructor ()
      ensures Valid() && forward == map[]
    {
      nextId, forward, reverse := 1, map[], map[];
    }

    method Intern(projectId: string) returns (id: nat)
      requires Valid()
      modifies this
      ensures Valid()
      ensures forward.Keys == old(forward).Keys + (if projectId == "" then {} else {projectId})
      ensures forall p :: p in old(forward) ==> forward[p] == old(forward)[p]
      ensures id == IdOf(projectId)
    {
      if projectId == "" {
        return TENANT_ID_UNSET;
      }
      if projectId in forward {
        return forward[projectId];
      }
      id := nextId;
      nextId := nextId + 1;
      forward := forward[projectId := id];
      reverse := reverse[id := projectId];
    }
  }

  /** An assignment of ids to projects, as a value: injective, 0 reserved. */
  ghost predicate GoodIds(ids: map<string, nat>) {
    && "" !in ids
    && (forall p :: p in ids ==> ids[p] != TENANT_ID_UNSET)
    && (forall p, q :: p in ids && q in ids && ids[p] == ids[q] ==> p == q)
  }

  /** What every Valid interner holds. */
  lemma ValidIsGood(t: TenantInterner)
    requires t.Valid()
    ensures GoodIds(t.forward)
  {
  }
}
