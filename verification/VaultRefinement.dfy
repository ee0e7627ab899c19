// The encrypted vault refines a plain table with a lock.
module VaultRefinement {
  import opened Common
  import opened Vault

  datatype Op =
    | Initialize(payload: Payload)
    | Verify(p: string)
    | Unlock(p: string)
    | Lock
    | Restart
    | IsUnlocked
    | SetKey(key: string, value: Value)
    | GetKey(key: string, default: Value)
    | SetSecret(handle: string, value: Value)
    | GetSecret(handle: string)
    | EnsureHandle(handle: string)

  function Do(s: State, op: Op): (State, Out) {
    match op
    case Initialize(payload) => Initialized(s, payload)
    case Verify(p) => (s, Bool(Accepts(s, p)))
    case Unlock(p) => Unlocked(s, p)
    case Lock => LockedUp(s)
    case Restart => Restarted(s)
    case IsUnlocked => Asked(s)
    case SetKey(key, value) => Put(s, key, value)
    case GetKey(key, default) => Fetch(s, key, default)
    case SetSecret(handle, value) => PutSecret(s, handle, value)
    case GetSecret(handle) => FetchSecret(s, handle)
    case EnsureHandle(handle) => HasSecret(s, handle)
  }

  // ---- The plain table ----

  datatype Plain = Missing | Kept(master: string, data: map<string, Value>, open: bool) {
    predicate Open() { Kept? && open }
  }

  function Collect(items: seq<(string, Value)>): map<string, Value> {
    if items == [] then map[] else
      Collect(items[..|items| - 1])[items[|items| - 1].0 := items[|items| - 1].1]
  }

  function Lookup(v: Plain, key: string, default: Value): Value
    requires v.Open()
  {
    if key in v.data then v.data[key] else default
  }

  function PlainDo(v: Plain, op: Op): (Plain, Out) {
    match op
    case Initialize(payload) => (Kept(payload.masterPassword, Collect(DefaultState(payload)), false), Done)
    case Verify(p) => (v, Bool(v.Kept? && p == v.master))
    case Unlock(p) => if v.Kept? && p == v.master then (v.(open := true), Bool(true)) else (v, Bool(false))
    case Lock => (if v.Kept? then v.(open := false) else v, Done)
    case Restart => (v, Done)
    case IsUnlocked => (v, Bool(v.Open()))
    case SetKey(key, value) => if v.Open() then (v.(data := v.data[key := value]), Done) else (v, Locked)
    case GetKey(key, default) => (v, if v.Open() then Got(Lookup(v, key, default)) else Locked)
    case EnsureHandle(handle) => (v, if v.Open() then HasHandle(Lookup(v, "secrets", EMPTY_TABLE), handle) else Locked)
    case SetSecret(handle, value) =>
      if !v.Open() then (v, Locked) else
        (match Lookup(v, "secrets", EMPTY_TABLE)
         case Table(entries) => (v.(data := v.data["secrets" := Table(entries[handle := value])]), Done)
         case _ => (v, Crashed))
    case GetSecret(handle) =>
      if !v.Open() then (v, Locked) else
        (match Lookup(v, "secrets", EMPTY_TABLE)
         case Table(entries) => (v, Got(if handle in entries then entries[handle] else Null))
         case _ => (v, Crashed))
  }

  // ---- Refinement ----

  ghost predicate Stores(kv: map<Digest, Row>, p: string, data: map<string, Value>) {
    && (forall d :: d in kv <==> d.of in data)
    && (forall k :: k in data ==> kv[Digest(k)] == Row(Sealed(p, k), Sealed(p, data[k])))
  }

  // Every row is sealed under the one password the verifier accepts, and memory and session file hold that password
  // exactly while the table is open.
  ghost predicate Refines(s: State, v: Plain) {
    match v
    case Missing => s == State(None, None, map[], None)
    case Kept(master, data, open) =>
      && master != "" && s.verifier == Some(Digest(master)) && Stores(s.kv, master, data)
      && s.password == (if open then Some(master) else None) && s.session == s.password
  }

  lemma {:induction false} PutAllStores(p: string, items: seq<(string, Value)>)
    ensures Stores(PutAll(p, items), p, Collect(items))
  {
    if items != [] {
      PutAllStores(p, items[..|items| - 1]);
    }
  }

  lemma InitializeRefines(s: State, v: Plain, payload: Payload)
    requires payload.masterPassword != ""
    ensures Refines(Do(s, Initialize(payload)).0, PlainDo(v, Initialize(payload)).0)
    ensures Do(s, Initialize(payload)).1 == PlainDo(v, Initialize(payload)).1
  {
    PutAllStores(payload.masterPassword, DefaultState(payload));
  }

  ghost predicate ProperPassword(op: Op) { op.Initialize? ==> op.payload.masterPassword != "" }

  lemma SecretRefines(s: State, v: Plain, op: Op)
    requires Refines(s, v) && (op.SetSecret? || op.GetSecret?)
    ensures Refines(Do(s, op).0, PlainDo(v, op).0) && Do(s, op).1 == PlainDo(v, op).1
  {
    if v.Open() {
      assert Fetch(s, "secrets", EMPTY_TABLE) == (s, Got(Lookup(v, "secrets", EMPTY_TABLE)));
    }
  }

  lemma HandleRefines(s: State, v: Plain, handle: string)
    requires Refines(s, v)
    ensures var op := EnsureHandle(handle); Refines(Do(s, op).0, PlainDo(v, op).0) && Do(s, op).1 == PlainDo(v, op).1
  {
    if v.Open() {
      assert Fetch(s, "secrets", EMPTY_TABLE) == (s, Got(Lookup(v, "secrets", EMPTY_TABLE)));
    }
  }

  lemma StepRefines(s: State, v: Plain, op: Op)
    requires Refines(s, v) && ProperPassword(op)
    ensures Refines(Do(s, op).0, PlainDo(v, op).0) && Do(s, op).1 == PlainDo(v, op).1
  {
    match op
    case Initialize(payload) => InitializeRefines(s, v, payload);
    case SetSecret(_, _) => SecretRefines(s, v, op);
    case GetSecret(_) => SecretRefines(s, v, op);
    case EnsureHandle(handle) => HandleRefines(s, v, handle);
    case _ =>
  }

  function Outputs(s: State, ops: seq<Op>): seq<Out>
    decreases |ops|
  {
    if ops == [] then [] else [Do(s, ops[0]).1] + Outputs(Do(s, ops[0]).0, ops[1..])
  }

  function PlainOutputs(v: Plain, ops: seq<Op>): seq<Out>
    decreases |ops|
  {
    if ops == [] then [] else [PlainDo(v, ops[0]).1] + PlainOutputs(PlainDo(v, ops[0]).0, ops[1..])
  }

  // Any sequence of operations answers as the plain table would; in particular a restart, which the plain table does
  // not even notice, is invisible.
  lemma {:induction false} VaultIsPlainTable(s: State, v: Plain, ops: seq<Op>)
    requires Refines(s, v) && forall i :: 0 <= i < |ops| ==> ProperPassword(ops[i])
    ensures Outputs(s, ops) == PlainOutputs(v, ops)
    decreases |ops|
  {
    if ops != [] {
      StepRefines(s, v, ops[0]);
      VaultIsPlainTable(Do(s, ops[0]).0, PlainDo(v, ops[0]).0, ops[1..]);
    }
  }

  // ---- What the plain table answers ----

  // A key reads as it was last set, and setting it changes no other; a closed table neither reads nor changes.
  lemma {:induction false} SetThenGet(v: Plain, key: string, value: Value, other: string, default: Value)
    ensures var (v', out) := PlainDo(v, SetKey(key, value));
      if v.Kept? && v.open then
        && out == Done && PlainDo(v', GetKey(key, default)) == (v', Got(value))
        && (other != key ==> PlainDo(v', GetKey(other, default)).1 == PlainDo(v, GetKey(other, default)).1)
      else out == Locked && v' == v && PlainDo(v, GetKey(key, default)) == (v, Locked)
  {
  }

  // So does a handle, in an open vault whose secrets are a table, as they are unless some other value was set for them.
  lemma {:induction false} SetSecretThenGet(v: Plain, handle: string, value: Value, other: string)
    requires v.Kept? && v.open && ("secrets" in v.data ==> v.data["secrets"].Table?)
    ensures var (v', out) := PlainDo(v, SetSecret(handle, value));
      && out == Done && v'.Kept? && v'.open && "secrets" in v'.data && v'.data["secrets"].Table?
      && PlainDo(v', GetSecret(handle)) == (v', Got(value))
      && PlainDo(v', EnsureHandle(handle)) == (v', Bool(true))
      && (other != handle ==> PlainDo(v', GetSecret(other)).1 == PlainDo(v, GetSecret(other)).1 &&
                              PlainDo(v', EnsureHandle(other)).1 == PlainDo(v, EnsureHandle(other)).1)
      && (forall key :: key != "secrets" ==> Lookup(v', key, value) == Lookup(v, key, value))
  {
  }

  // Without a value a handle reads as null, and it is not there.
  lemma {:induction false} SecretsStartEmpty(v: Plain, handle: string)
    requires v.Kept? && v.open && ("secrets" !in v.data || v.data["secrets"] == Table(map[]))
    ensures PlainDo(v, GetSecret(handle)) == (v, Got(Null)) && PlainDo(v, EnsureHandle(handle)) == (v, Bool(false))
  {
  }

  lemma {:induction false} SubstringIff(part: string, s: string)
    ensures Substring(part, s) <==> exists a, b :: s == a + part + b
  {
    if part <= s {
      assert s == [] + part + s[|part|..];
    } else if s != "" {
      SubstringIff(part, s[1..]);
      if a, b :| s[1..] == a + part + b {
        assert s == ([s[0]] + a) + part + b;
      }
      if a, b :| s == a + part + b {
        assert s[1..] == a[1..] + part + b;
      }
    }
  }

  // Whether a handle is there when some other value was set for the secrets.
  lemma {:induction false} HandleInOther(v: Plain, handle: string)
    requires v.Kept? && v.open && "secrets" in v.data && !v.data["secrets"].Table?
    ensures PlainDo(v, EnsureHandle(handle)) ==
      (v, match v.data["secrets"]
          case List(items) => Bool(exists i :: 0 <= i < |items| && items[i] == Text(handle))
          case Text(s) => Bool(exists a, b :: s == a + handle + b)
          case _ => Crashed)
    ensures PlainDo(v, GetSecret(handle)) == (v, Crashed)
    ensures forall value :: PlainDo(v, SetSecret(handle, value)) == (v, Crashed)
  {
    if v.data["secrets"].Text? { SubstringIff(handle, v.data["secrets"].s); }
  }

  // Exactly the master password opens the table and is verified; locking closes it; a question or a restart changes nothing.
  lemma {:induction false} OpensWithItsPassword(master: string, data: map<string, Value>, open: bool, p: string)
    ensures var v := Kept(master, data, open);
      && PlainDo(v, Verify(p)) == (v, Bool(p == master))
      && PlainDo(v, Unlock(p)) == (if p == master then (Kept(master, data, true), Bool(true)) else (v, Bool(false)))
      && PlainDo(v, Lock) == (Kept(master, data, false), Done)
      && PlainDo(v, IsUnlocked) == (v, Bool(open)) && PlainDo(v, Restart).0 == v
  {
  }

  lemma {:induction false} CollectHas(items: seq<(string, Value)>, i: nat)
    requires i < |items| && forall j :: i < j < |items| ==> items[j].0 != items[i].0
    ensures items[i].0 in Collect(items) && Collect(items)[items[i].0] == items[i].1
  {
    var n := |items| - 1;
    if i < n {
      CollectHas(items[..n], i);
    }
  }

  lemma {:induction false} CollectHasOnly(items: seq<(string, Value)>, key: string)
    ensures key in Collect(items) ==> exists i :: 0 <= i < |items| && items[i].0 == key
  {
    if items != [] && key != items[|items| - 1].0 {
      CollectHasOnly(items[..|items| - 1], key);
    }
  }

  function KeysOf(items: seq<(string, Value)>): seq<string> {
    seq(|items|, i requires 0 <= i < |items| => items[i].0)
  }

  lemma DefaultKeys(p: Payload)
    ensures KeysOf(DefaultState(p)) ==
      ["llm_provider", "llm_api_key", "llm_bot_token", "gate_bot_token", "allow_telegram_master_password",
       "telegram_webhook", "secrets", "identity"]
    ensures var items := DefaultState(p); |items| == 8 && forall i, j :: 0 <= i < j < 8 ==> items[i].0 != items[j].0
  {
  }

  lemma {:induction false} FreshVaultKeys(v: Plain, p: Payload, key: string)
    ensures key in PlainDo(v, Initialize(p)).0.data <==>
      key in ["llm_provider", "llm_api_key", "llm_bot_token", "gate_bot_token", "allow_telegram_master_password",
              "telegram_webhook", "secrets", "identity"]
  {
    var items := DefaultState(p);
    DefaultKeys(p);
    assert forall i :: 0 <= i < 8 ==> items[i].0 == KeysOf(items)[i];
    forall i | 0 <= i < 8 ensures items[i].0 in Collect(items) { CollectHas(items, i); }
    CollectHasOnly(items, key);
  }

  // A fresh vault is closed under its password, and holds what it was given.
  lemma {:induction false} FreshVaultHolds(v: Plain, p: Payload)
    ensures var made := PlainDo(v, Initialize(p)).0;
      && made.Kept? && !made.open && made.master == p.masterPassword
      && {"llm_provider", "llm_api_key", "llm_bot_token", "gate_bot_token", "allow_telegram_master_password",
          "telegram_webhook", "secrets", "identity"} <= made.data.Keys
      && made.data["llm_provider"] == Text(if p.llmProvider.Some? then p.llmProvider.value else "stub")
      && made.data["llm_api_key"] == Text(if p.llmApiKey.Some? then p.llmApiKey.value else "")
      && made.data["llm_bot_token"] == Text(if p.llmBotToken.Some? then p.llmBotToken.value else "")
      && made.data["gate_bot_token"] == Text(if p.gateBotToken.Some? then p.gateBotToken.value else "")
      && made.data["allow_telegram_master_password"] == Flag(p.allowTelegram)
      && made.data["telegram_webhook"] == Null && made.data["secrets"] == Table(map[])
      && made.data["identity"] == Table(map["allowed_ids" := List([]), "gate_bindings" := Table(map[]),
           "bot_bindings" := Table(map["llm" := Null, "sheriff" := Null]),
           "pending_activation" := Table(map["llm" := Table(map[]), "sheriff" := Table(map[])])])
  {
    var items := DefaultState(p);
    DefaultKeys(p);
    forall i | 0 <= i < 8 ensures items[i].0 in Collect(items) && Collect(items)[items[i].0] == items[i].1 {
      CollectHas(items, i);
    }
    assert items[0].0 in Collect(items) && items[1].0 in Collect(items) && items[2].0 in Collect(items) && items[3].0 in Collect(items);
    assert items[4].0 in Collect(items) && items[5].0 in Collect(items) && items[6].0 in Collect(items) && items[7].0 in Collect(items);
  }

  // The password must not be empty: with the empty one, initialize raises after it has rewritten the verifier, and from
  // then on the vault says it is unlocked while every read raises.
  lemma InitializeNeedsPassword(s: State, payload: Payload, key: string, default: Value)
    ensures Do(s, Initialize(payload)).1 == Done <==> payload.masterPassword != ""
    ensures payload.masterPassword == "" ==>
      var unlocked := Do(Do(s, Initialize(payload)).0, Unlock(""));
      && unlocked.1 == Bool(true)
      && Do(unlocked.0, IsUnlocked) == (unlocked.0, Bool(true))
      && Do(unlocked.0, GetKey(key, default)).1 == Locked
  {
  }
}
