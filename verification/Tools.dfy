// Running a tool for a principal (services/sheriff_tools/service.py): the policy decision, the secrets for its
// environment, and the requests made for whatever is missing.
module Tools {
  import opened Common
  import opened Policy
  import V = Vault
  import opened VaultRefinement
  import opened Requests
  import opened Text

  type Argv = seq<string>

  // What a process environment can hold: names without '=' and NUL, and texts without NUL.
  predicate EnvName(name: string) { '=' !in name && '\0' !in name }

  predicate EnvText(text: string) { '\0' !in text }

  predicate IsEnv(e: map<string, string>) {
    forall k :: k in e ==> EnvName(k) && EnvText(e[k])
  }

  type Env = e: map<string, string> | IsEnv(e)

  // `Executed`: the operating system is asked to start the child with this environment.
  datatype Outcome =
    | NeedsToolApproval(tool: string)
    | MasterPasswordNeeded
    | NeedsSecret(missing: seq<string>)
    | Executed(env: Env)
    | Raised

  const TOOL := "tool"

  // `str(item).strip()` decides which handles count.
  function NonBlank(handles: seq<string>): seq<string> {
    if handles == [] then [] else (if IsBlank(handles[0]) then [] else [handles[0]]) + NonBlank(handles[1..])
  }

  // `' '.join(argv[:6])`
  function Headline(argv: Argv): string {
    Join(" ", argv[..if |argv| <= 6 then |argv| else 6])
  }

  // What ToolExecutor.exec and, of arguments, subprocess.run accept.
  predicate Acceptable(argv: Argv) {
    argv != [] && forall i :: 0 <= i < |argv| ==> argv[i] !in {"|", ";", "&&", "||"} && '\0' !in argv[i]
  }

  function ToolRequest(argv: Argv, now: int): Action
    requires argv != []
  {
    CreateOrUpdate(Resource(TOOL, argv[0]), "Allow command execution for " + Headline(argv), ToolContext(argv), false, now)
  }

  function SecretRequest(argv: Argv, handle: string, now: int): Action
    requires argv != []
  {
    CreateOrUpdate(Resource(SECRET, handle), "Need " + handle + " to run " + Headline(argv),
                   SecretContext(handle, argv), false, now)
  }

  // What the user is told: the tool or the handle, and the first six words of the command.
  lemma {:induction false} RequestsTell(argv: Argv, handle: string, now: int)
    requires argv != []
    ensures var command := Join(" ", if |argv| < 6 then argv else argv[..6]);
      && ToolRequest(argv, now) ==
         CreateOrUpdate(Resource("tool", argv[0]), "Allow command execution for " + command, ToolContext(argv), false, now)
      && SecretRequest(argv, handle, now) ==
         CreateOrUpdate(Resource("secret", handle), "Need " + handle + " to run " + command, SecretContext(handle, argv), false, now)
  {
    if |argv| <= 6 { assert argv[..|argv|] == argv; }
  }

  function ValueOf(v: Plain, handle: string): V.Value {
    var out := PlainDo(v, GetSecret(handle)).1;
    if out.Got? then out.v else V.Null
  }

  // The handles without a value, in the order in which they were listed.
  function Lacking(v: Plain, handles: seq<string>): seq<string> {
    if handles == [] then [] else
      var last := handles[|handles| - 1];
      Lacking(v, handles[..|handles| - 1]) + if ValueOf(v, last).Null? then [last] else []
  }

  // The requests made for the missing handles, one after the other.
  function AskedFor(w: World, argv: Argv, missing: seq<string>, now: int): World
    requires argv != []
  {
    if missing == [] then w
    else Apply(AskedFor(w, argv, missing[..|missing| - 1], now), SecretRequest(argv, missing[|missing| - 1], now)).0
  }

  // The listed handles with their values, the later of two equal handles last.
  function Resolved(v: Plain, handles: seq<string>): map<string, V.Value> {
    if handles == [] then map[] else
      var last := handles[|handles| - 1];
      var rest := Resolved(v, handles[..|handles| - 1]);
      if ValueOf(v, last).Null? then rest else rest[last := ValueOf(v, last)]
  }

  // What one more handle changes.
  lemma OneMore(v: Plain, handles: seq<string>, i: nat)
    requires i < |handles|
    ensures var value := ValueOf(v, handles[i]);
      && Lacking(v, handles[..i + 1]) == Lacking(v, handles[..i]) + (if value.Null? then [handles[i]] else [])
      && Resolved(v, handles[..i + 1]) == if value.Null? then Resolved(v, handles[..i]) else Resolved(v, handles[..i])[handles[i] := value]
  {
    assert handles[..i + 1][..i] == handles[..i];
  }

  lemma AskOneMore(w: World, argv: Argv, missing: seq<string>, handle: string, now: int)
    requires argv != []
    ensures AskedFor(w, argv, missing + [handle], now) == Apply(AskedFor(w, argv, missing, now), SecretRequest(argv, handle, now)).0
  {
    assert (missing + [handle])[..|missing|] == missing;
  }

  lemma {:induction false} AskedKeepsVault(w: World, argv: Argv, missing: seq<string>, now: int)
    requires argv != []
    ensures AskedFor(w, argv, missing, now).vault == w.vault
  {
    if missing != [] { AskedKeepsVault(w, argv, missing[..|missing| - 1], now); }
  }

  predicate EnvValue(value: V.Value) { value.Text? && EnvText(value.s) }

  // The child's environment; a name or a value that an environment cannot hold makes subprocess.run raise.
  function ChildEnv(environ: Env, resolved: map<string, V.Value>): Option<Env> {
    if forall k :: k in resolved ==> EnvName(k) && EnvValue(resolved[k]) then
      Some(environ + map k | k in resolved :: resolved[k].s)
    else None
  }

  function Exec(w: World, principal: string, argv: Argv, handles: seq<string>, environ: Env, now: int): (World, Outcome) {
    if argv == [] then (w, Raised)
    else if Decided(w.policy, principal, Resource(TOOL, argv[0])) != Some(Allow) then
      (Apply(w, ToolRequest(argv, now)).0, NeedsToolApproval(argv[0]))
    else
      var wanted := NonBlank(handles);
      if wanted != [] && !w.vault.Open() then (w, MasterPasswordNeeded) else
        var missing := Lacking(w.vault, wanted);
        if missing != [] then (AskedFor(w, argv, missing, now), NeedsSecret(missing)) else
          var env := ChildEnv(environ, Resolved(w.vault, wanted));
          (w, if Acceptable(argv) && env.Some? then Executed(env.value) else Raised)
  }

  class SheriffToolsService {
    const policy: SheriffPolicyService
    const requests: SheriffRequestsService
    const secrets: SecretsService

    constructor (policy: SheriffPolicyService, requests: SheriffRequestsService, secrets: SecretsService)
      ensures this.policy == policy && this.requests == requests && this.secrets == secrets
    {
      this.policy, this.requests, this.secrets := policy, requests, secrets;
    }

    // All services talk to the same policy store and vault.
    ghost predicate Wired() { requests.policy == policy && requests.secrets == secrets }

    method EnsureToolAllowed(principal: string, argv: Argv, now: int) returns (refusal: Option<Outcome>)
      requires Wired() && argv != []
      modifies requests
      ensures if Decided(old(requests.View()).policy, principal, Resource(TOOL, argv[0])) == Some(Allow)
              then refusal == None && requests.View() == old(requests.View())
              else refusal == Some(NeedsToolApproval(argv[0])) && requests.View() == Apply(old(requests.View()), ToolRequest(argv, now)).0
    {
      var decision := policy.GetDecision(principal, Resource(TOOL, argv[0]));
      if decision == Some(Allow) { return None; }
      requests.CreateOrUpdate(Resource(TOOL, argv[0]), "Allow command execution for " + Headline(argv), ToolContext(argv), false, now);
      refusal := Some(NeedsToolApproval(argv[0]));
    }

    // Null also when the vault answers with an error.
    method SecretValue(handle: string) returns (value: V.Value)
      requires Wired()
      modifies secrets
      ensures value == ValueOf(old(secrets.vault), handle) && requests.View() == old(requests.View())
    {
      var out := secrets.Call(GetSecret(handle));
      value := if out.Got? then out.v else V.Null;
    }

    method AskForSecret(argv: Argv, handle: string, now: int)
      requires Wired() && argv != []
      modifies requests
      ensures requests.View() == Apply(old(requests.View()), SecretRequest(argv, handle, now)).0
    {
      requests.CreateOrUpdate(Resource(SECRET, handle), "Need " + handle + " to run " + Headline(argv),
                              SecretContext(handle, argv), false, now);
    }

    method ResolveSecretEnv(argv: Argv, handles: seq<string>, now: int) returns (refusal: Option<Outcome>, env: map<string, V.Value>)
      requires Wired() && argv != []
      modifies requests, secrets
      ensures var w := old(requests.View()); var missing := Lacking(w.vault, handles);
        if handles != [] && !w.vault.Open() then refusal == Some(MasterPasswordNeeded) && requests.View() == w
        else if missing != [] then refusal == Some(NeedsSecret(missing)) && requests.View() == AskedFor(w, argv, missing, now)
        else refusal == None && env == Resolved(w.vault, handles) && requests.View() == w
    {
      env := map[];
      if handles == [] { return None, env; }
      var unlocked := secrets.Call(IsUnlocked);
      if unlocked != V.Bool(true) { return Some(MasterPasswordNeeded), env; }
      var missing;
      missing, env := LookUpAll(argv, handles, now);
      refusal := if missing != [] then Some(NeedsSecret(missing)) else None;
    }

    // The loop over the handles.
    method LookUpAll(argv: Argv, handles: seq<string>, now: int) returns (missing: seq<string>, env: map<string, V.Value>)
      requires Wired() && argv != []
      modifies requests, secrets
      ensures missing == Lacking(old(secrets.vault), handles) && env == Resolved(old(secrets.vault), handles)
      ensures requests.View() == AskedFor(old(requests.View()), argv, missing, now)
    {
      env, missing := map[], [];
      ghost var w := requests.View();
      var i := 0;
      while i < |handles|
        invariant 0 <= i <= |handles| && missing == Lacking(w.vault, handles[..i]) && env == Resolved(w.vault, handles[..i])
        invariant requests.View() == AskedFor(w, argv, missing, now)
      {
        var handle := handles[i];
        OneMore(w.vault, handles, i);
        AskedKeepsVault(w, argv, missing, now);
        var value := SecretValue(handle);
        if value.Null? {
          AskOneMore(w, argv, missing, handle, now);
          missing := missing + [handle];
          AskForSecret(argv, handle, now);
        } else {
          env := env[handle := value];
        }
        i := i + 1;
      }
      assert handles[..i] == handles;
    }

    method ExecTool(principal: string, argv: Argv, envHandles: seq<string>, environ: Env, now: int) returns (outcome: Outcome)
      requires Wired()
      modifies requests, secrets
      ensures (requests.View(), outcome) == Exec(old(requests.View()), principal, argv, envHandles, environ, now)
    {
      if argv == [] { return Raised; }   // argv[0] raises
      var refusal := EnsureToolAllowed(principal, argv, now);
      if refusal.Some? { return refusal.value; }
      var secretRefusal, resolved := ResolveSecretEnv(argv, NonBlank(envHandles), now);
      if secretRefusal.Some? { return secretRefusal.value; }
      var env := ChildEnv(environ, resolved);
      outcome := if Acceptable(argv) && env.Some? then Executed(env.value) else Raised;
    }
  }
}
