// The secrets vault (shared/secrets_state.py) outside debug mode: rows encrypted under the master password, a verifier
// file with its hash, and a session file that keeps the vault unlocked across restarts. Hashing and encryption are
// ideal: a digest or a sealed value is known by what went into it.
module Vault {
  import opened Common

  datatype Digest = Digest(of: string)
  datatype Sealed<+T> = Sealed(password: string, body: T)

  function Unseal<T>(s: Sealed<T>, password: string): Option<T> {
    if s.password == password then Some(s.body) else None
  }

  // A JSON value; None is Null.
  datatype Value = Null | Text(s: string) | Flag(b: bool) | Number(n: real) | List(items: seq<Value>) | Table(entries: map<string, Value>)

  const EMPTY_TABLE: Value := Table(map[])

  datatype Row = Row(key: Sealed<string>, value: Sealed<Value>)

  // The in-memory password and the three files.
  datatype State = State(password: Option<string>, verifier: Option<Digest>, kv: map<Digest, Row>, session: Option<string>)

  datatype Payload = Payload(
    masterPassword: string, llmProvider: Option<string>, llmApiKey: Option<string>, llmBotToken: Option<string>,
    gateBotToken: Option<string>, allowTelegram: bool)

  datatype Out = Done | Bool(b: bool) | Got(v: Value) | Locked | Crashed

  function OrElse(o: Option<string>, default: string): Value {
    Text(if o.Some? then o.value else default)
  }

  // What a fresh vault holds, in the order in which it is written.
  function DefaultState(p: Payload): seq<(string, Value)> {
    [("llm_provider", OrElse(p.llmProvider, "stub")),
     ("llm_api_key", OrElse(p.llmApiKey, "")),
     ("llm_bot_token", OrElse(p.llmBotToken, "")),
     ("gate_bot_token", OrElse(p.gateBotToken, "")),
     ("allow_telegram_master_password", Flag(p.allowTelegram)),
     ("telegram_webhook", Null),
     ("secrets", EMPTY_TABLE),
     ("identity", Table(map[
       "allowed_ids" := List([]),
       "gate_bindings" := EMPTY_TABLE,
       "bot_bindings" := Table(map["llm" := Null, "sheriff" := Null]),
       "pending_activation" := Table(map["llm" := EMPTY_TABLE, "sheriff" := EMPTY_TABLE])]))]
  }

  // Whether `part` stands somewhere in `s`.
  predicate Substring(part: string, s: string) {
    part <= s || (s != "" && Substring(part, s[1..]))
  }

  // `handle in value`; None when Python raises TypeError.
  function Contains(value: Value, handle: string): Option<bool> {
    match value
    case Table(entries) => Some(handle in entries)
    case List(items) => Some(Text(handle) in items)
    case Text(s) => Some(Substring(handle, s))
    case _ => None
  }

  function HasHandle(value: Value, handle: string): Out {
    var found := Contains(value, handle);
    if found.Some? then Bool(found.value) else Crashed
  }

  class SecretsState {
    var password: Option<string>
    var verifier: Option<Digest>
    var kv: map<Digest, Row>
    var session: Option<string>

    ghost function View(): State
      reads this
    {
      State(password, verifier, kv, session)
    }

    // A new process over the files another one left.
    constructor (files: State)
      ensures View() == SessionLoaded(files.(password := None))
    {
      password, verifier, kv, session := None, files.verifier, files.kv, files.session;
      new;
      LoadSessionUnlock();
    }

    method VerifyMasterPassword(p: string) returns (ok: bool)
      ensures ok == Accepts(View(), p)
    {
      if verifier.None? { return false; }
      ok := verifier.value == Digest(p);
    }

    method LoadSessionUnlock()
      modifies this
      ensures View() == SessionLoaded(old(View()))
    {
      if password.Some? && password.value != "" { return; }
      if session.None? { return; }
      var p := session.value;
      if p != "" {
        var ok := VerifyMasterPassword(p);
        if ok {
          password := Some(p);
          return;
        }
      }
      session := None;
    }

    method Require() returns (ok: bool)
      modifies this
      ensures View() == Required(old(View())) && ok == Usable(View())
    {
      if password.None? || password.value == "" {
        LoadSessionUnlock();
      }
      ok := password.Some? && password.value != "";
    }

    method DbSet(key: string, value: Value) returns (out: Out)
      modifies this
      ensures (View(), out) == Put(old(View()), key, value)
    {
      var ok := Require();
      if !ok { return Locked; }
      kv := kv[Digest(key) := Row(Sealed(password.value, key), Sealed(password.value, value))];
      out := Done;
    }

    method DbGet(key: string, default: Value) returns (out: Out)
      modifies this
      ensures (View(), out) == Fetch(old(View()), key, default)
    {
      var ok := Require();
      if !ok { return Locked; }
      if Digest(key) !in kv { return Got(default); }
      match Unseal(kv[Digest(key)].value, password.value)
      case Some(v) => return Got(v);
      case None => return Got(default);
    }

    // The loop of initialize, over an empty table.
    method StoreAll(items: seq<(string, Value)>) returns (out: Out)
      requires kv == map[] && password.Some? && Accepts(View(), password.value) && items != []
      modifies this
      ensures old(password).value != "" ==>
                out == Done && View() == old(View()).(kv := PutAll(old(password).value, items))
      ensures old(password).value == "" ==> (View(), out) == (Required(old(View())), Locked)
    {
      ghost var p := password.value;
      var i := 0;
      while i < |items|
        invariant 0 <= i <= |items| && (p == "" ==> i == 0)
        invariant View() == old(View()).(kv := PutAll(p, items[..i]))
      {
        var o := DbSet(items[i].0, items[i].1);
        if o == Locked { return Locked; }
        assert items[..i + 1][..i] == items[..i];
        i := i + 1;
      }
      assert items[..i] == items;
      out := Done;
    }

    // The master password is written to the verifier and every default is stored; the vault ends up locked. With an
    // empty password the first write raises and the rest is not reached.
    method Initialize(payload: Payload) returns (out: Out)
      modifies this
      ensures (View(), out) == Initialized(old(View()), payload)
    {
      verifier := Some(Digest(payload.masterPassword));
      kv := map[];
      password := Some(payload.masterPassword);
      out := StoreAll(DefaultState(payload));
      if out == Locked { return; }
      password := None;
      session := None;
      out := Done;
    }

    method Unlock(p: string) returns (out: Out)
      modifies this
      ensures (View(), out) == Unlocked(old(View()), p)
    {
      var ok := VerifyMasterPassword(p);
      if !ok { return Bool(false); }
      password := Some(p);
      session := Some(p);
      out := Bool(true);
    }

    method Lock() returns (out: Out)
      modifies this
      ensures (View(), out) == LockedUp(old(View()))
    {
      password := None;
      session := None;
      out := Done;
    }

    method IsUnlocked() returns (out: Out)
      modifies this
      ensures (View(), out) == Asked(old(View()))
    {
      if password.None? {
        LoadSessionUnlock();
      }
      out := Bool(password.Some?);
    }

    method GetSecret(handle: string) returns (out: Out)
      modifies this
      ensures (View(), out) == FetchSecret(old(View()), handle)
    {
      out := DbGet("secrets", EMPTY_TABLE);
      if out.Got? {
        if !out.v.Table? { return Crashed; }
        out := Got(if handle in out.v.entries then out.v.entries[handle] else Null);
      }
    }

    method SetSecret(handle: string, value: Value) returns (out: Out)
      modifies this
      ensures (View(), out) == PutSecret(old(View()), handle, value)
    {
      out := DbGet("secrets", EMPTY_TABLE);
      if out.Got? {
        if !out.v.Table? { return Crashed; }
        out := DbSet("secrets", Table(out.v.entries[handle := value]));
      }
    }

    method EnsureHandle(handle: string) returns (out: Out)
      modifies this
      ensures (View(), out) == HasSecret(old(View()), handle)
    {
      out := DbGet("secrets", EMPTY_TABLE);
      if out.Got? {
        var found := Contains(out.v, handle);
        out := if found.Some? then Bool(found.value) else Crashed;
      }
    }
  }

  // ---- What the methods do to the state ----

  predicate Accepts(s: State, p: string) { s.verifier == Some(Digest(p)) }

  predicate Usable(s: State) { s.password.Some? && s.password.value != "" }

  function SessionLoaded(s: State): State {
    if Usable(s) || s.session.None? then s
    else if s.session.value != "" && Accepts(s, s.session.value) then s.(password := s.session)
    else s.(session := None)
  }

  function Required(s: State): State {
    if Usable(s) then s else SessionLoaded(s)
  }

  function Put(s: State, key: string, value: Value): (State, Out) {
    var r := Required(s);
    if !Usable(r) then (r, Locked) else
      (r.(kv := r.kv[Digest(key) := Row(Sealed(r.password.value, key), Sealed(r.password.value, value))]), Done)
  }

  function Fetch(s: State, key: string, default: Value): (State, Out) {
    var r := Required(s);
    if !Usable(r) then (r, Locked)
    else if Digest(key) !in r.kv then (r, Got(default))
    else
      match Unseal(r.kv[Digest(key)].value, r.password.value)
      case Some(v) => (r, Got(v))
      case None => (r, Got(default))
  }

  // The table after storing the items one by one.
  function PutAll(p: string, items: seq<(string, Value)>): map<Digest, Row> {
    if items == [] then map[] else
      var (k, v) := items[|items| - 1];
      PutAll(p, items[..|items| - 1])[Digest(k) := Row(Sealed(p, k), Sealed(p, v))]
  }

  function Initialized(s: State, payload: Payload): (State, Out) {
    var p := payload.masterPassword;
    var cleared := State(Some(p), Some(Digest(p)), map[], s.session);
    if p == "" then (Required(cleared), Locked)
    else (State(None, Some(Digest(p)), PutAll(p, DefaultState(payload)), None), Done)
  }

  function Unlocked(s: State, p: string): (State, Out) {
    if Accepts(s, p) then (s.(password := Some(p), session := Some(p)), Bool(true)) else (s, Bool(false))
  }

  function LockedUp(s: State): (State, Out) { (s.(password := None, session := None), Done) }

  function Restarted(s: State): (State, Out) { (SessionLoaded(s.(password := None)), Done) }

  function Asked(s: State): (State, Out) {
    var r := if s.password.None? then SessionLoaded(s) else s;
    (r, Bool(r.password.Some?))
  }

  function FetchSecret(s: State, handle: string): (State, Out) {
    var (r, out) := Fetch(s, "secrets", EMPTY_TABLE);
    if !out.Got? then (r, out)
    else if !out.v.Table? then (r, Crashed)
    else (r, Got(if handle in out.v.entries then out.v.entries[handle] else Null))
  }

  function PutSecret(s: State, handle: string, value: Value): (State, Out) {
    var (r, out) := Fetch(s, "secrets", EMPTY_TABLE);
    if !out.Got? then (r, out)
    else if !out.v.Table? then (r, Crashed)
    else Put(r, "secrets", Table(out.v.entries[handle := value]))
  }

  function HasSecret(s: State, handle: string): (State, Out) {
    var (r, out) := Fetch(s, "secrets", EMPTY_TABLE);
    if !out.Got? then (r, out)
    else (r, HasHandle(out.v, handle))
  }
}
