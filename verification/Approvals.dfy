// The approval loop end to end: a tool runs only when everything it needs has been granted, and granting what each
// refused call asked for makes it run.
module Approvals {
  import opened Common
  import opened Policy
  import V = Vault
  import opened VaultRefinement
  import opened Requests
  import opened RequestsRuns
  import opened Text
  import opened Tools

  // ---- Safety ----

  lemma {:induction false} NonBlankIs(handles: seq<string>, h: string)
    ensures h in NonBlank(handles) <==> h in handles && !IsBlank(h)
  {
    if handles != [] {
      NonBlankIs(handles[1..], h);
    }
  }

  lemma {:induction false} LackingIs(v: Plain, handles: seq<string>, h: string)
    ensures h in Lacking(v, handles) <==> h in handles && ValueOf(v, h).Null?
  {
    if handles != [] {
      var n := |handles| - 1;
      LackingIs(v, handles[..n], h);
      assert handles == handles[..n] + [handles[n]];
    }
  }

  lemma {:induction false} ResolvedIs(v: Plain, handles: seq<string>, h: string)
    ensures h in Resolved(v, handles) <==> h in handles && !ValueOf(v, h).Null?
    ensures h in Resolved(v, handles) ==> Resolved(v, handles)[h] == ValueOf(v, h)
  {
    if handles != [] {
      var n := |handles| - 1;
      ResolvedIs(v, handles[..n], h);
      assert handles == handles[..n] + [handles[n]];
    }
  }

  lemma NothingLacking(v: Plain, handles: seq<string>)
    ensures Lacking(v, handles) == [] <==> forall h :: h in handles ==> !ValueOf(v, h).Null?
  {
    if Lacking(v, handles) == [] {
      forall h | h in handles ensures !ValueOf(v, h).Null? { LackingIs(v, handles, h); }
    } else {
      var h := Lacking(v, handles)[0];
      LackingIs(v, handles, h);
    }
  }

  // Everything that must have been granted: the decision, and for every handle listed, which must be a name that an
  // environment can hold, such a text in the open vault.
  ghost predicate Granted(w: World, principal: string, argv: Argv, handles: seq<string>) {
    && Acceptable(argv)
    && Decided(w.policy, principal, Resource(TOOL, argv[0])) == Some(Allow)
    && (forall h :: h in NonBlank(handles) ==> w.vault.Open() && EnvName(h) && EnvValue(ValueOf(w.vault, h)))
  }

  // When nothing is lacking, the child's environment can be built if and only if it can hold every handle and its value.
  lemma ChildEnvIs(v: Plain, wanted: seq<string>, environ: Env)
    requires Lacking(v, wanted) == []
    ensures var env := ChildEnv(environ, Resolved(v, wanted));
      && (env.Some? <==> forall h :: h in wanted ==> EnvName(h) && EnvValue(ValueOf(v, h)))
      && (env.Some? ==>
           && env.value.Keys == environ.Keys + (set h | h in wanted)
           && (forall h :: h in wanted ==> V.Text(env.value[h]) == ValueOf(v, h))
           && (forall k :: k in environ && k !in wanted ==> env.value[k] == environ[k]))
  {
    var resolved := Resolved(v, wanted);
    NothingLacking(v, wanted);
    forall h ensures h in resolved <==> h in wanted
             ensures h in resolved ==> resolved[h] == ValueOf(v, h) {
      ResolvedIs(v, wanted, h);
    }
  }

  // A call executes the tool if and only if everything is granted; the child then sees exactly the vault's text under
  // every listed handle and the service's own environment elsewhere, and nothing is requested.
  lemma {:induction false} ExecutesIffGranted(w: World, principal: string, argv: Argv, handles: seq<string>, environ: Env, now: int)
    ensures var (w', out) := Exec(w, principal, argv, handles, environ, now);
      && (out.Executed? <==> Granted(w, principal, argv, handles))
      && (out.Executed? ==>
           && w' == w
           && out.env.Keys == environ.Keys + (set h | h in NonBlank(handles))
           && (forall h :: h in NonBlank(handles) ==> V.Text(out.env[h]) == ValueOf(w.vault, h))
           && (forall k :: k in environ && k !in NonBlank(handles) ==> out.env[k] == environ[k]))
  {
    var wanted := NonBlank(handles);
    NothingLacking(w.vault, wanted);
    if Lacking(w.vault, wanted) == [] { ChildEnvIs(w.vault, wanted, environ); }
    if wanted != [] {
      assert wanted[0] in wanted;
    }
  }

  // The value of a handle in an open vault, null when there is none.
  lemma ValueIs(v: Plain, h: string)
    ensures ValueOf(v, h) ==
      if v.Kept? && v.open && "secrets" in v.data && v.data["secrets"].Table? && h in v.data["secrets"].entries
      then v.data["secrets"].entries[h] else V.Null
  {
  }

  // The decision that counts: the principal's own, or else the default one.
  ghost predicate MayRun(t: Table, principal: string, tool: string) {
    var own, default := (principal, Resource("tool", tool)), ("default", Resource("tool", tool));
    if own in t then t[own] == Allow else default in t && t[default] == Allow
  }

  // What a call comes to, in the order in which it is decided: the argv, the decision, the lock, the missing values, and
  // what a child process can be given.
  lemma {:induction false} OutcomeTells(w: World, principal: string, argv: Argv, handles: seq<string>, environ: Env, now: int)
    ensures var out := Exec(w, principal, argv, handles, environ, now).1;
      if argv == [] then out == Raised
      else if !MayRun(w.policy, principal, argv[0]) then out == NeedsToolApproval(argv[0])
      else if (exists h :: h in handles && !IsBlank(h)) && !(w.vault.Kept? && w.vault.open) then out == MasterPasswordNeeded
      else if exists h :: h in handles && !IsBlank(h) && ValueOf(w.vault, h).Null? then out.NeedsSecret?
      else
        (out.Raised? || out.Executed?) &&
        (out.Executed? <==>
          && (forall i :: 0 <= i < |argv| ==> argv[i] != "|" && argv[i] != ";" && argv[i] != "&&" && argv[i] != "||" && '\0' !in argv[i])
          && (forall h :: h in handles && !IsBlank(h) ==>
                '=' !in h && '\0' !in h && ValueOf(w.vault, h).Text? && '\0' !in ValueOf(w.vault, h).s))
  {
    var wanted := NonBlank(handles);
    forall h ensures h in wanted <==> h in handles && !IsBlank(h) { NonBlankIs(handles, h); }
    NothingLacking(w.vault, wanted);
    ExecutesIffGranted(w, principal, argv, handles, environ, now);
    if wanted != [] {
      assert wanted[0] in wanted;
    }
  }

  // Handles are looked up, and missing ones named, in the order in which they are listed.
  lemma {:induction false} NonBlankJoins(a: seq<string>, b: seq<string>)
    ensures NonBlank(a + b) == NonBlank(a) + NonBlank(b)
  {
    if a == [] {
      assert a + b == b;
    } else {
      NonBlankJoins(a[1..], b);
      assert (a + b)[1..] == a[1..] + b;
      Assoc(if IsBlank(a[0]) then [] else [a[0]], NonBlank(a[1..]), NonBlank(b));
    }
  }

  lemma {:induction false} LackingJoins(v: Plain, a: seq<string>, b: seq<string>)
    ensures Lacking(v, a + b) == Lacking(v, a) + Lacking(v, b)
  {
    if b == [] {
      assert a + b == a && Lacking(v, a) + [] == Lacking(v, a);
    } else {
      var n := |b| - 1;
      LackingJoins(v, a, b[..n]);
      assert (a + b)[..|a| + n] == a + b[..n];
      Assoc(Lacking(v, a), Lacking(v, b[..n]), if ValueOf(v, b[n]).Null? then [b[n]] else []);
    }
  }

  // ---- What a refusal asks for ----

  // Pending requests for these were added, one each and in order, and nothing else; what was there before is still there.
  ghost predicate AddsRequests(db: Db, db': Db, asked: seq<Resource>) {
    && |db'.instances| == |db.instances| + |asked| && db'.instances[..|db.instances|] == db.instances
    && forall i :: |db.instances| <= i < |db'.instances| ==>
         db'.instances[i].r == asked[i - |db.instances|] && !db'.instances[i].resolved && db'.instances[i].resolvedAt == None
  }

  // Each of them can be found in the catalog, waiting for the user unless it was approved.
  ghost predicate CanBeFound(db: Db, asked: seq<Resource>) {
    forall k :: 0 <= k < |asked| ==> asked[k] in db.catalog && db.catalog[asked[k]].status != Denied
  }

  function SecretsOf(missing: seq<string>): seq<Resource> {
    seq(|missing|, i requires 0 <= i < |missing| => Resource("secret", missing[i]))
  }

  ghost predicate OnlyApprovedFixed(db: Db) {
    forall r :: r in db.catalog && db.catalog[r].isImmutable ==> db.catalog[r].status == Approved
  }

  lemma AskOne(w: World, r: Resource, oneLiner: string, context: Context, now: int, base: Db, asked: seq<Resource>)
    requires AddsRequests(base, w.db, asked)
    ensures var db' := Apply(w, CreateOrUpdate(r, oneLiner, context, false, now)).0.db;
      && AddsRequests(base, db', asked + [r])
      && (CanBeFound(w.db, asked) && OnlyApprovedFixed(w.db) ==> CanBeFound(db', asked + [r]) && OnlyApprovedFixed(db'))
  {
    CreateTells(w, r, oneLiner, context, false, now);
    var db' := Apply(w, CreateOrUpdate(r, oneLiner, context, false, now)).0.db;
    assert db'.instances[..|base.instances|] == w.db.instances[..|base.instances|];
    forall i | |base.instances| <= i < |db'.instances|
      ensures db'.instances[i].r == (asked + [r])[i - |base.instances|] && !db'.instances[i].resolved && db'.instances[i].resolvedAt == None
    {
      if i < |w.db.instances| {
        assert db'.instances[i] == w.db.instances[i];
      }
    }
  }

  lemma {:induction false} AskedForAdds(w: World, argv: Argv, missing: seq<string>, now: int)
    requires argv != []
    ensures var db' := AskedFor(w, argv, missing, now).db;
      && AddsRequests(w.db, db', SecretsOf(missing))
      && (OnlyApprovedFixed(w.db) ==> CanBeFound(db', SecretsOf(missing)) && OnlyApprovedFixed(db'))
  {
    if missing != [] {
      var n := |missing| - 1;
      var before := AskedFor(w, argv, missing[..n], now);
      AskedForAdds(w, argv, missing[..n], now);
      AskOne(before, Resource("secret", missing[n]), "Need " + missing[n] + " to run " + Headline(argv),
             SecretContext(missing[n], argv), now, w.db, SecretsOf(missing[..n]));
      assert SecretsOf(missing[..n]) + [Resource("secret", missing[n])] == SecretsOf(missing);
    }
  }

  // A refused call leaves behind a pending request for exactly what its outcome names, and a call that is not refused, or
  // refused for the vault alone, none. What is asked for can be found in a catalog that fixes approved entries only, as
  // every run of operations leaves it.
  lemma {:induction false} RefusalAsks(w: World, principal: string, argv: Argv, handles: seq<string>, environ: Env, now: int)
    ensures var (w', out) := Exec(w, principal, argv, handles, environ, now);
      && w'.policy == w.policy && w'.vault == w.vault && (OnlyApprovedFixed(w.db) ==> OnlyApprovedFixed(w'.db))
      && match out
         case NeedsToolApproval(tool) =>
           argv != [] && tool == argv[0] && AddsRequests(w.db, w'.db, [Resource("tool", tool)]) &&
           (OnlyApprovedFixed(w.db) ==> CanBeFound(w'.db, [Resource("tool", tool)]))
         case NeedsSecret(missing) =>
           missing != [] && missing == Lacking(w.vault, NonBlank(handles)) && AddsRequests(w.db, w'.db, SecretsOf(missing)) &&
           (OnlyApprovedFixed(w.db) ==> CanBeFound(w'.db, SecretsOf(missing)))
         case _ => w' == w
  {
    if argv != [] {
      assert AddsRequests(w.db, w.db, []);
      AskOne(w, Resource("tool", argv[0]), "Allow command execution for " + Headline(argv), ToolContext(argv), now, w.db, []);
      assert [] + [Resource("tool", argv[0])] == [Resource("tool", argv[0])];
      AskedForAdds(w, argv, Lacking(w.vault, NonBlank(handles)), now);
      AskingChangesOnlyRequests(w, argv, Lacking(w.vault, NonBlank(handles)), now);
    }
  }

  // ---- Granting what was asked for ----

  datatype Job = Job(principal: string, argv: Argv, handles: seq<string>, environ: Env, texts: string -> string, now: int)

  function Try(w: World, j: Job): (World, Outcome) {
    Exec(w, j.principal, j.argv, j.handles, j.environ, j.now)
  }

  function Provided(w: World, missing: seq<string>, texts: string -> string, now: int): World {
    if missing == [] then w else
      var h := missing[|missing| - 1];
      Apply(Provided(w, missing[..|missing| - 1], texts, now), ResolveSecret(h, false, V.Text(texts(h)), now)).0
  }

  // What was requested since there were n instances.
  function RequestedSince(db: Db, n: nat): seq<Resource> {
    if n <= |db.instances| then seq(|db.instances| - n, i requires 0 <= i < |db.instances| - n => db.instances[n + i].r) else []
  }

  // The user grants a request: allows it, or provides a text for it.
  function Grant(w: World, r: Resource, texts: string -> string, now: int): World {
    if r.kind == SECRET then Apply(w, ResolveSecret(r.value, false, V.Text(texts(r.value)), now)).0
    else Apply(w, ResolvePolicyItem(r, "always_allow", now)).0
  }

  function GrantAll(w: World, rs: seq<Resource>, texts: string -> string, now: int): World {
    if rs == [] then w else Grant(GrantAll(w, rs[..|rs| - 1], texts, now), rs[|rs| - 1], texts, now)
  }

  // The user's answer to a call that led from one world to another: grant what it put into the catalog.
  function Answer(before: World, after: World, texts: string -> string, now: int): World {
    GrantAll(after, RequestedSince(after.db, |before.db.instances|), texts, now)
  }

  lemma GrantingOne(w: World, r: Resource, texts: string -> string, now: int)
    ensures GrantAll(w, [r], texts, now) == Grant(w, r, texts, now)
  {
    assert [r][..0] == [] && GrantAll(w, [], texts, now) == w;
  }

  lemma {:induction false} GrantingSecrets(w: World, missing: seq<string>, texts: string -> string, now: int)
    ensures GrantAll(w, SecretsOf(missing), texts, now) == Provided(w, missing, texts, now)
  {
    if missing != [] {
      var n := |missing| - 1;
      GrantingSecrets(w, missing[..n], texts, now);
      assert SecretsOf(missing)[..n] == SecretsOf(missing[..n]);
    }
  }

  // So it answers just what the outcome of the call names.
  lemma AnswerIs(w: World, j: Job)
    ensures var (w1, out) := Try(w, j);
      Answer(w, w1, j.texts, j.now) ==
        match out
        case NeedsToolApproval(tool) => Apply(w1, ResolvePolicyItem(Resource(TOOL, tool), "always_allow", j.now)).0
        case NeedsSecret(missing) => Provided(w1, missing, j.texts, j.now)
        case _ => w1
  {
    var (w1, out) := Try(w, j);
    RefusalAsks(w, j.principal, j.argv, j.handles, j.environ, j.now);
    var asked := RequestedSince(w1.db, |w.db.instances|);
    match out
    case NeedsToolApproval(tool) => assert asked == [Resource("tool", tool)]; GrantingOne(w1, asked[0], j.texts, j.now);
    case NeedsSecret(missing) => assert asked == SecretsOf(missing); GrantingSecrets(w1, missing, j.texts, j.now);
    case _ => assert asked == [];
  }

  // Up to `calls` calls, answering every refusal, until one executes.
  function Attempt(w: World, j: Job, calls: nat): (World, Outcome)
    requires calls >= 1
    decreases calls
  {
    var (w1, out) := Try(w, j);
    if out.Executed? || calls == 1 then (w1, out) else Attempt(Answer(w, w1, j.texts, j.now), j, calls - 1)
  }

  // A handle that can be listed, with a value that can be used or else a text that can be provided.
  predicate Suppliable(v: Plain, h: string, texts: string -> string) {
    EnvName(h) && if ValueOf(v, h).Null? then EnvText(texts(h)) else EnvValue(ValueOf(v, h))
  }

  predicate HasTable(v: Plain) {
    v.Open() && Lookup(v, "secrets", V.EMPTY_TABLE).Table?
  }

  // The vault serves the listed handles: it is open, its secrets are a table, and every handle can be supplied.
  ghost predicate Serves(v: Plain, handles: seq<string>, texts: string -> string) {
    handles != [] ==> HasTable(v) && forall h :: h in handles ==> Suppliable(v, h, texts)
  }

  // No row of the principal's own forbids the tool.
  predicate Overridable(w: World, principal: string, argv: Argv)
    requires argv != []
  {
    principal == DEFAULT || Stored(w.policy, principal, Resource(TOOL, argv[0])) in {None, Some(Allow)}
  }

  lemma {:induction false} AskingChangesOnlyRequests(w: World, argv: Argv, missing: seq<string>, now: int)
    requires argv != []
    ensures AskedFor(w, argv, missing, now) == w.(db := AskedFor(w, argv, missing, now).db)
  {
    if missing != [] {
      AskingChangesOnlyRequests(w, argv, missing[..|missing| - 1], now);
    }
  }

  lemma {:induction false} ProvidingStores(w: World, missing: seq<string>, texts: string -> string, now: int)
    ensures var w' := Provided(w, missing, texts, now);
      && w'.policy == w.policy && HasTable(w'.vault) == HasTable(w.vault)
      && if HasTable(w.vault) then
           forall h :: ValueOf(w'.vault, h) == if h in missing then V.Text(texts(h)) else ValueOf(w.vault, h)
         else w'.vault == w.vault
  {
    if missing != [] {
      var n := |missing| - 1;
      assert missing == missing[..n] + [missing[n]];
      ProvidingStores(w, missing[..n], texts, now);
      var before := Provided(w, missing[..n], texts, now);
      if HasTable(before.vault) {
        StoringOne(before.vault, missing[n], V.Text(texts(missing[n])));
      }
    }
  }

  lemma StoringOne(v: Plain, handle: string, value: V.Value)
    requires HasTable(v)
    ensures var v' := PlainDo(v, SetSecret(handle, value)).0;
      && HasTable(v')
      && forall h :: ValueOf(v', h) == if h == handle then value else ValueOf(v, h)
  {
  }

  predicate Allowed(w: World, j: Job)
    requires j.argv != []
  {
    Decided(w.policy, j.principal, Resource(TOOL, j.argv[0])) == Some(Allow)
  }

  // An allowed call that is refused for secrets has asked for exactly the handles that lack a value.
  lemma RefusedForSecrets(w: World, j: Job)
    requires Try(w, j).1.NeedsSecret?
    ensures var missing := Lacking(w.vault, NonBlank(j.handles));
      && Try(w, j).1 == NeedsSecret(missing)
      && Try(w, j).0 == w.(db := Try(w, j).0.db)
      && forall h :: h in missing <==> h in NonBlank(j.handles) && ValueOf(w.vault, h).Null?
  {
    var wanted := NonBlank(j.handles);
    var missing := Lacking(w.vault, wanted);
    forall h ensures h in missing <==> h in wanted && ValueOf(w.vault, h).Null? { LackingIs(w.vault, wanted, h); }
    AskingChangesOnlyRequests(w, j.argv, missing, j.now);
  }

  // The world after a call and its answer.
  function AfterAnswer(w: World, j: Job): World {
    Answer(w, Try(w, j).0, j.texts, j.now)
  }

  // What the user's answer stores is what the handles lack.
  lemma AnswerStores(w: World, j: Job)
    requires Try(w, j).1.NeedsSecret?
    ensures var w' := AfterAnswer(w, j);
      && w'.policy == w.policy && HasTable(w'.vault) == HasTable(w.vault)
      && (HasTable(w.vault) ==> forall h :: h in NonBlank(j.handles) ==>
            ValueOf(w'.vault, h) == if ValueOf(w.vault, h).Null? then V.Text(j.texts(h)) else ValueOf(w.vault, h))
  {
    AnswerIs(w, j);
    RefusedForSecrets(w, j);
    ProvidingStores(Try(w, j).0, Lacking(w.vault, NonBlank(j.handles)), j.texts, j.now);
  }

  // Answering neither makes a vault serve the handles nor keeps it from doing so.
  lemma AnswerKeepsServes(w: World, j: Job)
    ensures Serves(AfterAnswer(w, j).vault, NonBlank(j.handles), j.texts) <==> Serves(w.vault, NonBlank(j.handles), j.texts)
  {
    AnswerIs(w, j);
    if Try(w, j).1.NeedsSecret? {
      AnswerStores(w, j);
    } else {
      assert AfterAnswer(w, j).vault == w.vault;
    }
  }

  // Once the tool is allowed, one answer about secrets is enough.
  lemma AllowedNeedsTwo(w: World, j: Job)
    requires Acceptable(j.argv) && Serves(w.vault, NonBlank(j.handles), j.texts) && Allowed(w, j)
    ensures Attempt(w, j, 2).1.Executed?
  {
    ExecutesIffGranted(w, j.principal, j.argv, j.handles, j.environ, j.now);
    if !Try(w, j).1.Executed? {
      NothingLacking(w.vault, NonBlank(j.handles));
      AnswerStores(w, j);
      var w2 := AfterAnswer(w, j);
      assert Granted(w2, j.principal, j.argv, j.handles);
      ExecutesIffGranted(w2, j.principal, j.argv, j.handles, j.environ, j.now);
      assert Attempt(w2, j, 1) == Try(w2, j);
    }
  }

  // What can be told before the first call.
  ghost predicate Grantable(w: World, j: Job) {
    Acceptable(j.argv) && Overridable(w, j.principal, j.argv) && Serves(w.vault, NonBlank(j.handles), j.texts)
  }

  // Approval convergence: alternating calls with answers executes the tool, within three calls or not at all, if and only
  // if the executor accepts the argv, no row of the principal's own forbids the tool, and either no handle is listed or
  // the vault is open with its table of secrets, and each handle is a name, and its value or else the text to be
  // provided is one, that an environment can hold.
  lemma {:induction false} Convergence(w: World, j: Job, calls: nat)
    requires calls >= 3
    ensures Attempt(w, j, calls).1.Executed? <==> Grantable(w, j)
  {
    if j.argv != [] && !Overridable(w, j.principal, j.argv) {
      NeverOverridden(w, j, calls);
    } else if !Grantable(w, j) {
      NeverServed(w, j, calls);
    } else {
      ThreeSuffice(w, j);
      AttemptStays(w, j, 3, calls);
    }
  }

  lemma ThreeSuffice(w: World, j: Job)
    requires Grantable(w, j)
    ensures Attempt(w, j, 3).1.Executed?
  {
    if Allowed(w, j) {
      AllowedNeedsTwo(w, j);
      AttemptStays(w, j, 2, 3);
    } else {
      ExecutesIffGranted(w, j.principal, j.argv, j.handles, j.environ, j.now);
      AnswerIs(w, j);
      AllowedNeedsTwo(AfterAnswer(w, j), j);
    }
  }

  // An argv that is not accepted, or handles that the vault cannot serve, keep every call from executing.
  lemma {:induction false} NeverServed(w: World, j: Job, calls: nat)
    requires calls >= 1 && !(Acceptable(j.argv) && Serves(w.vault, NonBlank(j.handles), j.texts))
    ensures !Attempt(w, j, calls).1.Executed?
    decreases calls
  {
    ExecutesIffGranted(w, j.principal, j.argv, j.handles, j.environ, j.now);
    if Granted(w, j.principal, j.argv, j.handles) {
      GrantedIsServed(w, j);
    }
    if calls > 1 {
      AnswerKeepsServes(w, j);
      NeverServed(AfterAnswer(w, j), j, calls - 1);
    }
  }

  lemma GrantedIsServed(w: World, j: Job)
    requires Granted(w, j.principal, j.argv, j.handles)
    ensures Serves(w.vault, NonBlank(j.handles), j.texts)
  {
    var wanted := NonBlank(j.handles);
    if wanted != [] {
      assert wanted[0] in wanted;
    }
  }

  lemma {:induction false} AttemptStays(w: World, j: Job, calls: nat, more: nat)
    requires 1 <= calls <= more && Attempt(w, j, calls).1.Executed?
    ensures Attempt(w, j, more) == Attempt(w, j, calls)
    decreases calls
  {
    if !Try(w, j).1.Executed? {
      AttemptStays(AfterAnswer(w, j), j, calls - 1, more - 1);
    }
  }

  lemma RefusedAgain(w: World, j: Job)
    requires j.argv != [] && !Overridable(w, j.principal, j.argv)
    ensures Try(w, j).1 == NeedsToolApproval(j.argv[0])
    ensures !Overridable(AfterAnswer(w, j), j.principal, j.argv)
  {
    AnswerIs(w, j);
  }

  // A principal's own row that does not allow the tool outlasts any number of approvals: they write default rows.
  lemma {:induction false} NeverOverridden(w: World, j: Job, calls: nat)
    requires calls >= 1 && j.argv != [] && !Overridable(w, j.principal, j.argv)
    ensures Attempt(w, j, calls).1 == NeedsToolApproval(j.argv[0])
    decreases calls
  {
    RefusedAgain(w, j);
    if calls > 1 {
      NeverOverridden(AfterAnswer(w, j), j, calls - 1);
    }
  }

  // ---- Calls are runs of catalog operations, so what holds of runs holds across them ----

  lemma {:induction false} AskingAgrees(w: World, argv: Argv, missing: seq<string>, now: int, r: Resource)
    requires argv != [] && Agrees(w, r)
    ensures Agrees(AskedFor(w, argv, missing, now), r)
  {
    if missing != [] {
      var n := |missing| - 1;
      AskingAgrees(w, argv, missing[..n], now, r);
      AgreesStep(AskedFor(w, argv, missing[..n], now), SecretRequest(argv, missing[n], now), r);
    }
  }

  lemma {:induction false} ProvidingAgrees(w: World, missing: seq<string>, texts: string -> string, now: int, r: Resource)
    requires Agrees(w, r)
    ensures Agrees(Provided(w, missing, texts, now), r)
  {
    if missing != [] {
      var n := |missing| - 1;
      ProvidingAgrees(w, missing[..n], texts, now, r);
      AgreesStep(Provided(w, missing[..n], texts, now), ResolveSecret(missing[n], false, V.Text(texts(missing[n])), now), r);
    }
  }

  lemma {:induction false} AttemptsAgree(w: World, j: Job, calls: nat, r: Resource)
    requires calls >= 1 && Agrees(w, r)
    ensures Agrees(Attempt(w, j, calls).0, r)
    decreases calls
  {
    var (w1, out) := Try(w, j);
    AnswerIs(w, j);
    match out {
      case NeedsToolApproval(tool) =>
        AgreesStep(w, ToolRequest(j.argv, j.now), r);
        AgreesStep(w1, ResolvePolicyItem(Resource(TOOL, tool), "always_allow", j.now), r);
      case NeedsSecret(missing) =>
        AskingAgrees(w, j.argv, missing, j.now, r);
        ProvidingAgrees(w1, missing, j.texts, j.now, r);
      case _ =>
    }
    if !out.Executed? && calls > 1 {
      AttemptsAgree(AfterAnswer(w, j), j, calls - 1, r);
    }
  }
}
