// Permission decisions (shared/permissions_store.py) and the policy service over them (services/sheriff_policy/service.py).
module Policy {
  import opened Common

  datatype Resource = Resource(kind: string, value: string)
  datatype Decision = Allow | Deny | OtherDecision(text: string)

  type Table = map<(string, Resource), Decision>

  const DEFAULT := "default"

  function Stored(t: Table, principal: string, r: Resource): Option<Decision> {
    if (principal, r) in t then Some(t[(principal, r)]) else None
  }

  // The principal's own row, or else the default one.
  function Decided(t: Table, principal: string, r: Resource): Option<Decision> {
    if Stored(t, principal, r).Some? then Stored(t, principal, r) else Stored(t, DEFAULT, r)
  }

  class PermissionsStore {
    var table: Table

    constructor ()
      ensures table == map[]
    {
      table := map[];
    }

    method GetDecision(principal: string, r: Resource) returns (d: Option<Decision>)
      ensures d == Stored(table, principal, r)
      ensures d.None? <==> (principal, r) !in table
      ensures forall x :: d == Some(x) ==> table[(principal, r)] == x
    {
      d := if (principal, r) in table then Some(table[(principal, r)]) else None;
    }

    method SetDecision(principal: string, r: Resource, d: Decision)
      modifies this
      ensures table == old(table)[(principal, r) := d]
    {
      table := table[(principal, r) := d];
    }
  }

  class SheriffPolicyService {
    const store: PermissionsStore

    constructor (store: PermissionsStore)
      ensures this.store == store
    {
      this.store := store;
    }

    method GetDecision(principal: string, r: Resource) returns (d: Option<Decision>)
      ensures d == Decided(store.table, principal, r)
      ensures d == if (principal, r) in store.table then Some(store.table[(principal, r)])
                   else if ("default", r) in store.table then Some(store.table[("default", r)]) else None
    {
      d := store.GetDecision(principal, r);
      if d.None? && principal != DEFAULT {
        d := store.GetDecision(DEFAULT, r);
      }
    }

    method SetDecision(principal: string, r: Resource, d: Decision)
      modifies store
      ensures store.table == old(store.table)[(principal, r) := d]
    {
      store.SetDecision(principal, r, d);
    }
  }
}
