// The approval catalog (services/sheriff_requests/service.py): entries by type and key, request instances, and the
// notices sent to the user, next to the default policy rows and the vault that resolutions write.
module Requests {
  import opened Common
  import opened Policy
  import V = Vault
  import opened VaultRefinement

  datatype Status = Requested | Approved | Denied

  // What a request is about; stands for the JSON text of its context object.
  datatype Context = NoContext | ToolContext(argv: seq<string>) | SecretContext(handle: string, argv: seq<string>) | OtherContext(json: string)

  // `r.kind` is the entry's type and `r.value` its key; the two identify an entry.
  datatype Entry = Entry(status: Status, oneLiner: string, context: Context, createdAt: int, updatedAt: int, isImmutable: bool)

  datatype Instance = Instance(r: Resource, resolved: bool, createdAt: int, resolvedAt: Option<int>, resolution: string)

  // `request` is the position of the instance that a notice is about.
  datatype Notice =
    | Asked(r: Resource, oneLiner: string, context: Context, request: nat, forced: bool)
    | Settled(r: Resource, status: Status, request: nat)

  datatype Db = Db(catalog: map<Resource, Entry>, instances: seq<Instance>, notices: seq<Notice>)

  datatype World = World(policy: Table, db: Db, vault: Plain)

  const SECRET := "secret"
  const POLICY_KINDS := {"domain", "tool", "disclose_output"}

  // ---- Request instances ----

  predicate Pending(i: Instance, r: Resource) { i.r == r && !i.resolved }

  // The pending instance with the latest creation time; of several, the first in the table.
  function NewestPending(instances: seq<Instance>, r: Resource): (n: Option<nat>)
    ensures n.Some? ==> n.value < |instances| && Pending(instances[n.value], r)
  {
    if instances == [] then None else
      var last := |instances| - 1;
      var n := NewestPending(instances[..last], r);
      if Pending(instances[last], r) && (n.None? || instances[n.value].createdAt < instances[last].createdAt) then Some(last)
      else n
  }

  lemma {:induction false} NewestPendingIsNewest(instances: seq<Instance>, r: Resource)
    ensures match NewestPending(instances, r)
            case None => forall i :: 0 <= i < |instances| ==> !Pending(instances[i], r)
            case Some(n) => forall i :: 0 <= i < |instances| && Pending(instances[i], r) ==> instances[i].createdAt <= instances[n].createdAt
  {
    if instances != [] {
      NewestPendingIsNewest(instances[..|instances| - 1], r);
    }
  }

  // The table after resolving the newest pending instance, or after adding a resolved one when none is pending.
  function InstanceResolved(instances: seq<Instance>, r: Resource, action: string, now: int): (seq<Instance>, nat) {
    match NewestPending(instances, r)
    case Some(n) => (instances[n := instances[n].(resolved := true, resolvedAt := Some(now), resolution := action)], n)
    case None => (instances + [Instance(r, true, now, Some(now), action)], |instances|)
  }

  // ---- Operations ----

  function Created(db: Db, r: Resource, oneLiner: string, context: Context, force: bool, now: int): Db {
    var known := r in db.catalog;
    var fixed := known && (db.catalog[r].isImmutable || db.catalog[r].status == Approved);
    var entry :=
      if !known then Entry(Requested, oneLiner, context, now, now, false)
      else if fixed then db.catalog[r]
      else db.catalog[r].(status := Requested, oneLiner := oneLiner, context := context, updatedAt := now);
    var notify := !known || force || (!fixed && db.catalog[r].status != Requested);
    Db(db.catalog[r := entry],
       db.instances + [Instance(r, false, now, None, "")],
       if notify then db.notices + [Asked(r, entry.oneLiner, context, |db.instances|, force)] else db.notices)
  }

  function Settlement(db: Db, r: Resource, status: Status, text: string, action: string, now: int): Db {
    var entry :=
      if r in db.catalog then db.catalog[r].(status := status, isImmutable := status == Approved, updatedAt := now)
      else Entry(status, text, NoContext, now, now, status == Approved);
    var (instances, n) := InstanceResolved(db.instances, r, action, now);
    Db(db.catalog[r := entry], instances, db.notices + [Settled(r, status, n)])
  }

  datatype Action =
    | CreateOrUpdate(r: Resource, oneLiner: string, context: Context, force: bool, now: int)
    | ResolveSecret(key: string, deny: bool, value: V.Value, now: int)
    | ResolvePolicyItem(r: Resource, verdict: string, now: int)
    | SetDecision(principal: string, r: Resource, d: Decision)   // policy.set_decision for a principal of its own
    | VaultOp(op: Op)

  datatype Reply = Answered(status: Status) | MasterPasswordRequired | Unsupported | Other

  // The effect of one whole operation. A resolution that is refused changes nothing.
  function Apply(w: World, a: Action): (World, Reply) {
    match a
    case CreateOrUpdate(r, oneLiner, context, force, now) =>
      (w.(db := Created(w.db, r, oneLiner, context, force, now)), Answered(Requested))
    case ResolveSecret(key, deny, value, now) =>
      var r := Resource(SECRET, key);
      if deny then
        (w.(db := Settlement(w.db, r, Denied, "Secret denied for " + key, "deny_secret", now)), Answered(Denied))
      else if !w.vault.Open() then (w, MasterPasswordRequired)
      else
        (World(w.policy, Settlement(w.db, r, Approved, "Secret provided for " + key, "provide_secret", now),
               PlainDo(w.vault, SetSecret(key, value)).0), Answered(Approved))
    case ResolvePolicyItem(r, verdict, now) =>
      if verdict != "always_allow" && verdict != "deny" then (w, Unsupported) else
        var status := if verdict == "always_allow" then Approved else Denied;
        (World(w.policy[(DEFAULT, r) := if verdict == "always_allow" then Allow else Deny],
               Settlement(w.db, r, status, r.kind + " decision for " + r.value, verdict, now), w.vault), Answered(status))
    case SetDecision(principal, r, d) => (w.(policy := w.policy[(principal, r) := d]), Other)
    case VaultOp(op) => (w.(vault := PlainDo(w.vault, op).0), Other)
  }

  // ---- What an operation leaves behind ----

  // A request is entered or renewed unless it was approved, one pending instance is added, and the user is asked when the
  // request is new, was denied, or is forced.
  lemma {:induction false} CreateTells(w: World, r: Resource, oneLiner: string, context: Context, force: bool, now: int)
    ensures var (w', reply) := Apply(w, CreateOrUpdate(r, oneLiner, context, force, now));
      var db, db' := w.db, w'.db;
      && w'.policy == w.policy && w'.vault == w.vault && reply == Answered(Requested)
      && db'.catalog.Keys == db.catalog.Keys + {r} && (forall x :: x in db.catalog && x != r ==> db'.catalog[x] == db.catalog[x])
      && db'.catalog[r] ==
         (if r !in db.catalog then Entry(Requested, oneLiner, context, now, now, false)
          else if db.catalog[r].isImmutable || db.catalog[r].status == Approved then db.catalog[r]
          else Entry(Requested, oneLiner, context, db.catalog[r].createdAt, now, false))
      && db'.instances == db.instances + [Instance(r, false, now, None, "")]
      && db'.notices == db.notices +
         (if r !in db.catalog || force || (db.catalog[r].status == Denied && !db.catalog[r].isImmutable)
          then [Asked(r, db'.catalog[r].oneLiner, context, |db.instances|, force)] else [])
  {
  }

  // What every resolution that takes effect does to the catalog, the instances and the notices.
  ghost predicate IsSettled(db: Db, db': Db, r: Resource, status: Status, text: string, action: string, now: int) {
    && db'.catalog.Keys == db.catalog.Keys + {r} && (forall x :: x in db.catalog && x != r ==> db'.catalog[x] == db.catalog[x])
    && db'.catalog[r] ==
       (if r !in db.catalog then Entry(status, text, NoContext, now, now, status == Approved)
        else Entry(status, db.catalog[r].oneLiner, db.catalog[r].context, db.catalog[r].createdAt, now, status == Approved))
    && (match NewestPending(db.instances, r)
        case Some(n) =>
          && db'.instances == db.instances[n := Instance(r, true, db.instances[n].createdAt, Some(now), action)]
          && db'.notices == db.notices + [Settled(r, status, n)]
        case None =>
          && db'.instances == db.instances + [Instance(r, true, now, Some(now), action)]
          && db'.notices == db.notices + [Settled(r, status, |db.instances|)])
  }

  // A denied secret is settled; a provided one is stored under its key and settled, unless the vault is locked.
  lemma {:induction false} SecretTells(w: World, key: string, deny: bool, value: V.Value, now: int)
    ensures var (w', reply) := Apply(w, ResolveSecret(key, deny, value, now)); var r := Resource("secret", key);
      if deny then
        && w' == w.(db := w'.db) && reply == Answered(Denied)
        && IsSettled(w.db, w'.db, r, Denied, "Secret denied for " + key, "deny_secret", now)
      else if w.vault.Kept? && w.vault.open then
        && w'.policy == w.policy && w'.vault == PlainDo(w.vault, SetSecret(key, value)).0 && reply == Answered(Approved)
        && IsSettled(w.db, w'.db, r, Approved, "Secret provided for " + key, "provide_secret", now)
      else w' == w && reply == MasterPasswordRequired
  {
  }

  // A policy item is settled and its default row written to match; any other action is refused.
  lemma {:induction false} PolicyTells(w: World, r: Resource, verdict: string, now: int)
    ensures var (w', reply) := Apply(w, ResolvePolicyItem(r, verdict, now)); var text := r.kind + " decision for " + r.value;
      if verdict == "always_allow" then
        && w'.policy == w.policy[("default", r) := Allow] && w'.vault == w.vault && reply == Answered(Approved)
        && IsSettled(w.db, w'.db, r, Approved, text, "always_allow", now)
      else if verdict == "deny" then
        && w'.policy == w.policy[("default", r) := Deny] && w'.vault == w.vault && reply == Answered(Denied)
        && IsSettled(w.db, w'.db, r, Denied, text, "deny", now)
      else w' == w && reply == Unsupported
  {
  }

  // The secrets service as its callers see it: its vault refines a plain table (VaultRefinement).
  class SecretsService {
    var vault: Plain

    constructor (vault: Plain)
      ensures this.vault == vault
    {
      this.vault := vault;
    }

    method Call(op: Op) returns (out: V.Out)
      modifies this
      ensures (vault, out) == PlainDo(old(vault), op)
    {
      var (v, o) := PlainDo(vault, op);
      vault, out := v, o;
    }
  }

  class SheriffRequestsService {
    const policy: SheriffPolicyService
    const secrets: SecretsService
    var catalog: map<Resource, Entry>
    var instances: seq<Instance>
    var notices: seq<Notice>

    constructor (policy: SheriffPolicyService, secrets: SecretsService)
      ensures this.policy == policy && this.secrets == secrets && View().db == Db(map[], [], [])
    {
      this.policy, this.secrets := policy, secrets;
      catalog, instances, notices := map[], [], [];
    }

    ghost function View(): World
      reads this, policy.store, secrets
    {
      World(policy.store.table, Db(catalog, instances, notices), secrets.vault)
    }

    method InsertRequestInstance(r: Resource, now: int) returns (request: nat)
      modifies this`instances
      ensures request == |old(instances)| && instances == old(instances) + [Instance(r, false, now, None, "")]
    {
      request := |instances|;
      instances := instances + [Instance(r, false, now, None, "")];
    }

    method ResolveInstance(r: Resource, action: string, now: int) returns (request: nat)
      modifies this`instances
      ensures (instances, request) == InstanceResolved(old(instances), r, action, now)
    {
      var n := NewestPending(instances, r);
      if n.Some? {
        request := n.value;
        instances := instances[request := instances[request].(resolved := true, resolvedAt := Some(now), resolution := action)];
        return;
      }
      request := |instances|;
      instances := instances + [Instance(r, true, now, Some(now), action)];
    }

    method CreateOrUpdate(r: Resource, oneLiner: string, context: Context, force: bool, now: int)
      modifies this
      ensures View() == Apply(old(View()), Action.CreateOrUpdate(r, oneLiner, context, force, now)).0
    {
      var shouldNotify := false;
      if r !in catalog {
        catalog := catalog[r := Entry(Requested, oneLiner, context, now, now, false)];
        shouldNotify := true;
      } else {
        var current := catalog[r];
        if current.isImmutable || current.status == Approved {
          shouldNotify := force;
        } else {
          shouldNotify := force || current.status != Requested;
          catalog := catalog[r := current.(status := Requested, oneLiner := oneLiner, context := context, updatedAt := now)];
        }
      }
      var request := InsertRequestInstance(r, now);
      if shouldNotify {
        notices := notices + [Asked(r, catalog[r].oneLiner, context, request, force)];
      }
      assert catalog == old(catalog)[r := catalog[r]];
    }

    // The upsert, the instance and the notices that all resolutions share.
    method Settle(r: Resource, status: Status, text: string, action: string, now: int)
      modifies this
      ensures Db(catalog, instances, notices) == Settlement(old(Db(catalog, instances, notices)), r, status, text, action, now)
    {
      if r !in catalog {
        catalog := catalog[r := Entry(status, text, NoContext, now, now, status == Approved)];
      } else {
        catalog := catalog[r := catalog[r].(status := status, isImmutable := status == Approved, updatedAt := now)];
      }
      var request := ResolveInstance(r, action, now);
      notices := notices + [Settled(r, status, request)];
    }

    method ResolveSecret(key: string, deny: bool, value: V.Value, now: int) returns (reply: Reply)
      modifies this, secrets
      ensures (View(), reply) == Apply(old(View()), Action.ResolveSecret(key, deny, value, now))
    {
      var r := Resource(SECRET, key);
      if deny {
        Settle(r, Denied, "Secret denied for " + key, "deny_secret", now);
        return Answered(Denied);
      }
      var unlocked := secrets.Call(IsUnlocked);
      if unlocked != V.Bool(true) { return MasterPasswordRequired; }
      var saved := secrets.Call(SetSecret(key, value));   // the reply is not looked at
      Settle(r, Approved, "Secret provided for " + key, "provide_secret", now);
      reply := Answered(Approved);
    }

    method ResolvePolicyItem(r: Resource, verdict: string, now: int) returns (reply: Reply)
      modifies this, policy.store
      ensures (View(), reply) == Apply(old(View()), Action.ResolvePolicyItem(r, verdict, now))
    {
      if verdict == "always_allow" {
        policy.SetDecision(DEFAULT, r, Allow);
        Settle(r, Approved, r.kind + " decision for " + r.value, verdict, now);
        reply := Answered(Approved);
      } else if verdict == "deny" {
        policy.SetDecision(DEFAULT, r, Deny);
        Settle(r, Denied, r.kind + " decision for " + r.value, verdict, now);
        reply := Answered(Denied);
      } else {
        reply := Unsupported;
      }
    }
  }
}
