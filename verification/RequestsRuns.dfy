// What holds of the approval catalog after any run of whole operations.
module RequestsRuns {
  import opened Common
  import opened Policy
  import V = Vault
  import opened VaultRefinement
  import opened Requests

  // The operations that callers can make, with the default policy rows changed only by resolutions.
  predicate Proper(a: Action) {
    match a
    case ResolvePolicyItem(r, _, _) => r.kind in POLICY_KINDS
    case SetDecision(principal, _, _) => principal != DEFAULT
    case _ => true
  }

  const FRESH: World := World(map[], Db(map[], [], []), Missing)

  function After(w: World, run: seq<Action>): World
    decreases |run|
  {
    if run == [] then w else After(Apply(w, run[0]).0, run[1..])
  }

  ghost predicate AllProper(run: seq<Action>) {
    forall i :: 0 <= i < |run| ==> Proper(run[i])
  }

  // ---- Catalog and policy agree ----

  predicate IsApproved(w: World, r: Resource) {
    r in w.db.catalog && w.db.catalog[r].status == Approved
  }

  ghost predicate Agrees(w: World, r: Resource) {
    && (r in w.db.catalog ==> (w.db.catalog[r].isImmutable <==> w.db.catalog[r].status == Approved))
    && (r.kind in POLICY_KINDS ==> (IsApproved(w, r) <==> Stored(w.policy, DEFAULT, r) == Some(Allow)))
  }

  lemma AgreesStep(w: World, a: Action, r: Resource)
    requires Agrees(w, r) && Proper(a)
    ensures Agrees(Apply(w, a).0, r)
  {
  }

  // After every run of whole operations an entry is immutable exactly when it is approved, and a domain, tool or
  // disclose_output entry is approved exactly when the default decision is to allow.
  lemma {:induction false} CatalogAgreesWithPolicy(w: World, run: seq<Action>, r: Resource)
    requires Agrees(w, r) && AllProper(run)
    ensures Agrees(After(w, run), r)
    decreases |run|
  {
    if run != [] {
      assert Proper(run[0]);
      AgreesStep(w, run[0], r);
      assert AllProper(run[1..]);
      CatalogAgreesWithPolicy(Apply(w, run[0]).0, run[1..], r);
    }
  }

  lemma {:induction false} FreshRunsAgree(run: seq<Action>, r: Resource)
    requires AllProper(run)
    ensures Agrees(After(FRESH, run), r)
  {
    CatalogAgreesWithPolicy(FRESH, run, r);
  }

  // ---- Approved entries ----

  // The resolutions of an entry that take effect: not those refused for a locked vault or an unknown action.
  predicate Resolves(w: World, a: Action, r: Resource) {
    match a
    case ResolveSecret(key, _, _, _) => r == Resource(SECRET, key) && Apply(w, a).1.Answered?
    case ResolvePolicyItem(x, _, _) => r == x && Apply(w, a).1.Answered?
    case _ => false
  }

  predicate Denies(w: World, a: Action, r: Resource) {
    Resolves(w, a, r) && Apply(w, a).1 == Answered(Denied)
  }

  // Until a resolution of it takes effect, an approved entry stays exactly as it is, whatever else happens.
  lemma {:induction false} ApprovedStays(w: World, run: seq<Action>, r: Resource)
    requires IsApproved(w, r)
    requires forall i :: 0 <= i < |run| ==> !Resolves(After(w, run[..i]), run[i], r)
    ensures IsApproved(After(w, run), r) && After(w, run).db.catalog[r] == w.db.catalog[r]
    decreases |run|
  {
    if run != [] {
      assert !Resolves(After(w, run[..0]), run[0], r);
      var w' := Apply(w, run[0]).0;
      forall i | 0 <= i < |run[1..]|
        ensures !Resolves(After(w', run[1..][..i]), run[1..][i], r)
      {
        assert run[..i + 1][0] == run[0] && run[..i + 1][1..] == run[1..][..i];
        assert !Resolves(After(w, run[..i + 1]), run[i + 1], r);
      }
      ApprovedStays(w', run[1..], r);
    }
  }

  // ---- The user is asked ----

  // The last notice about an entry.
  function LastAbout(notices: seq<Notice>, r: Resource): Option<Notice> {
    if notices == [] then None
    else if notices[|notices| - 1].r == r then Some(notices[|notices| - 1])
    else LastAbout(notices[..|notices| - 1], r)
  }

  // An entry that waits for the user was put before the user, after whatever was settled about it.
  ghost predicate WasAsked(w: World, r: Resource) {
    && (r in w.db.catalog && w.db.catalog[r].isImmutable ==> w.db.catalog[r].status == Approved)
    && (r in w.db.catalog && w.db.catalog[r].status == Requested ==>
         LastAbout(w.db.notices, r).Some? && LastAbout(w.db.notices, r).value.Asked?)
  }

  lemma LastAfterAppend(notices: seq<Notice>, n: Notice, r: Resource)
    ensures LastAbout(notices + [n], r) == if n.r == r then Some(n) else LastAbout(notices, r)
  {
    assert (notices + [n])[..|notices|] == notices;
  }

  lemma WasAskedStep(w: World, a: Action, r: Resource)
    requires WasAsked(w, r)
    ensures WasAsked(Apply(w, a).0, r)
  {
    match a
    case CreateOrUpdate(_, _, _, _, _) => AskedByCreate(w, a, r);
    case ResolveSecret(_, _, _, _) => AskedBeforeResolve(w, a, r);
    case ResolvePolicyItem(_, _, _) => AskedBeforeResolve(w, a, r);
    case _ =>
  }

  lemma AskedByCreate(w: World, a: Action, r: Resource)
    requires WasAsked(w, r) && a.CreateOrUpdate?
    ensures WasAsked(Apply(w, a).0, r)
  {
    CreateTells(w, a.r, a.oneLiner, a.context, a.force, a.now);
    var notices, after := w.db.notices, Apply(w, a).0.db.notices;
    if after != notices {
      LastAfterAppend(notices, after[|notices|], r);
    }
  }

  lemma AskedBeforeResolve(w: World, a: Action, r: Resource)
    requires WasAsked(w, r) && (a.ResolveSecret? || a.ResolvePolicyItem?)
    ensures WasAsked(Apply(w, a).0, r)
  {
    match a
    case ResolveSecret(key, deny, value, now) =>
      SecretTells(w, key, deny, value, now);
      if deny {
        AskedThenSettled(w, Apply(w, a).0, r, Resource("secret", key), Denied, "Secret denied for " + key, "deny_secret", now);
      } else if w.vault.Open() {
        AskedThenSettled(w, Apply(w, a).0, r, Resource("secret", key), Approved, "Secret provided for " + key, "provide_secret", now);
      }
    case ResolvePolicyItem(x, verdict, now) =>
      PolicyTells(w, x, verdict, now);
      if verdict == "always_allow" || verdict == "deny" {
        AskedThenSettled(w, Apply(w, a).0, r, x, if verdict == "deny" then Denied else Approved,
                         x.kind + " decision for " + x.value, verdict, now);
      }
  }

  lemma AskedThenSettled(w: World, w': World, r: Resource, x: Resource, status: Status, text: string, action: string, now: int)
    requires WasAsked(w, r) && IsSettled(w.db, w'.db, x, status, text, action, now) && status != Requested
    ensures WasAsked(w', r)
  {
    LastAfterAppend(w.db.notices, w'.db.notices[|w.db.notices|], r);
  }

  lemma {:induction false} WasAskedRun(w: World, run: seq<Action>, r: Resource)
    requires WasAsked(w, r)
    ensures WasAsked(After(w, run), r)
    decreases |run|
  {
    if run != [] {
      WasAskedStep(w, run[0], r);
      WasAskedRun(Apply(w, run[0]).0, run[1..], r);
    }
  }

  // After every run, the last notice about an entry that is requested is one that asks for it.
  lemma {:induction false} RequestedIsAsked(run: seq<Action>, r: Resource)
    ensures var db := After(FRESH, run).db;
      r in db.catalog && db.catalog[r].status == Requested ==>
        exists k :: 0 <= k < |db.notices| && db.notices[k].Asked? && db.notices[k].r == r &&
                    forall j :: k < j < |db.notices| ==> db.notices[j].r != r
  {
    WasAskedRun(FRESH, run, r);
    var db := After(FRESH, run).db;
    if r in db.catalog && db.catalog[r].status == Requested {
      var k := LastAboutIs(db.notices, r);
    }
  }

  lemma {:induction false} LastAboutIs(notices: seq<Notice>, r: Resource) returns (k: nat)
    requires LastAbout(notices, r).Some?
    ensures k < |notices| && notices[k] == LastAbout(notices, r).value && notices[k].r == r
    ensures forall j :: k < j < |notices| ==> notices[j].r != r
  {
    k := |notices| - 1;
    if notices[k].r != r {
      k := LastAboutIs(notices[..k], r);
    }
  }

  // ---- Accounting, entry by entry ----

  function CountResolved(instances: seq<Instance>, r: Resource): nat {
    if instances == [] then 0 else
      CountResolved(instances[..|instances| - 1], r) +
      if instances[|instances| - 1].r == r && instances[|instances| - 1].resolved then 1 else 0
  }

  function CountAll(instances: seq<Instance>, r: Resource): nat {
    if instances == [] then 0 else
      CountAll(instances[..|instances| - 1], r) + if instances[|instances| - 1].r == r then 1 else 0
  }

  // Notices sent because of a request nobody forced.
  function CountUnforced(notices: seq<Notice>, r: Resource): nat {
    if notices == [] then 0 else
      var last := notices[|notices| - 1];
      CountUnforced(notices[..|notices| - 1], r) + if last.Asked? && last.r == r && !last.forced then 1 else 0
  }

  // How often each thing happened to an entry during a run.
  datatype Tally = Tally(created: nat, resolved: nat, foundNone: nat, denied: nat)

  const NOTHING := Tally(0, 0, 0, 0)

  function One(b: bool): nat { if b then 1 else 0 }

  function Tallied(t: Tally, w: World, a: Action, r: Resource): Tally {
    Tally(t.created + One(a.CreateOrUpdate? && a.r == r),
          t.resolved + One(Resolves(w, a, r)),
          t.foundNone + One(Resolves(w, a, r) && NewestPending(w.db.instances, r).None?),
          t.denied + One(Denies(w, a, r)))
  }

  function Tallies(t: Tally, w: World, run: seq<Action>, r: Resource): Tally
    decreases |run|
  {
    if run == [] then t else Tallies(Tallied(t, w, run[0], r), Apply(w, run[0]).0, run[1..], r)
  }

  ghost predicate Accounted(w: World, t: Tally, r: Resource) {
    && CountResolved(w.db.instances, r) == t.resolved
    && CountAll(w.db.instances, r) == t.created + t.foundNone
    && CountUnforced(w.db.notices, r) + One(r in w.db.catalog && w.db.catalog[r].status == Denied) <= 1 + t.denied
    && (r !in w.db.catalog ==> CountUnforced(w.db.notices, r) == 0 && t.denied == 0)
  }

  lemma {:induction false} CountsAfterUpdate(instances: seq<Instance>, n: nat, i: Instance, r: Resource)
    requires n < |instances| && i.r == instances[n].r && i.resolved && !instances[n].resolved
    ensures CountAll(instances[n := i], r) == CountAll(instances, r)
    ensures CountResolved(instances[n := i], r) == CountResolved(instances, r) + One(i.r == r)
  {
    var last := |instances| - 1;
    if n < last {
      CountsAfterUpdate(instances[..last], n, i, r);
      assert instances[n := i][..last] == instances[..last][n := i];
    } else {
      assert instances[n := i][..last] == instances[..last];
    }
  }

  lemma CountsAfterAppend(instances: seq<Instance>, i: Instance, r: Resource)
    ensures CountAll(instances + [i], r) == CountAll(instances, r) + One(i.r == r)
    ensures CountResolved(instances + [i], r) == CountResolved(instances, r) + One(i.r == r && i.resolved)
  {
    assert (instances + [i])[..|instances|] == instances;
  }

  lemma NoticesAfterAppend(notices: seq<Notice>, n: Notice, r: Resource)
    ensures CountUnforced(notices + [n], r) == CountUnforced(notices, r) + One(n.Asked? && n.r == r && !n.forced)
  {
    assert (notices + [n])[..|notices|] == notices;
  }

  lemma CreatedAccounted(w: World, t: Tally, a: Action, r: Resource)
    requires Accounted(w, t, r) && a.CreateOrUpdate?
    ensures Accounted(Apply(w, a).0, Tallied(t, w, a, r), r)
  {
    var db := Apply(w, a).0.db;
    CountsAfterAppend(w.db.instances, db.instances[|w.db.instances|], r);
    if db.notices != w.db.notices {
      NoticesAfterAppend(w.db.notices, db.notices[|w.db.notices|], r);
    }
  }

  lemma InstanceCounts(instances: seq<Instance>, x: Resource, action: string, now: int, r: Resource)
    ensures var (after, n) := InstanceResolved(instances, x, action, now);
      && CountResolved(after, r) == CountResolved(instances, r) + One(x == r)
      && CountAll(after, r) == CountAll(instances, r) + One(x == r && NewestPending(instances, x).None?)
  {
    var (after, n) := InstanceResolved(instances, x, action, now);
    if NewestPending(instances, x).Some? {
      CountsAfterUpdate(instances, n, after[n], r);
    } else {
      CountsAfterAppend(instances, after[n], r);
    }
  }

  lemma SettledAccounted(w: World, t: Tally, x: Resource, status: Status, text: string, action: string, now: int, w': World, r: Resource)
    requires Accounted(w, t, r) && w'.db == Settlement(w.db, x, status, text, action, now)
    ensures var hit := x == r;
      Accounted(w', Tally(t.created, t.resolved + One(hit), t.foundNone + One(hit && NewestPending(w.db.instances, r).None?),
                          t.denied + One(hit && status == Denied)), r)
  {
    InstanceCounts(w.db.instances, x, action, now, r);
    NoticesAfterAppend(w.db.notices, w'.db.notices[|w.db.notices|], r);
  }

  lemma SecretAccounted(w: World, t: Tally, key: string, deny: bool, value: V.Value, now: int, r: Resource)
    requires Accounted(w, t, r)
    ensures var a := ResolveSecret(key, deny, value, now); Accounted(Apply(w, a).0, Tallied(t, w, a, r), r)
  {
    var x, w' := Resource(SECRET, key), Apply(w, ResolveSecret(key, deny, value, now)).0;
    if deny {
      SettledAccounted(w, t, x, Denied, "Secret denied for " + key, "deny_secret", now, w', r);
    } else if w.vault.Open() {
      SettledAccounted(w, t, x, Approved, "Secret provided for " + key, "provide_secret", now, w', r);
    }
  }

  lemma PolicyAccounted(w: World, t: Tally, x: Resource, verdict: string, now: int, r: Resource)
    requires Accounted(w, t, r)
    ensures var a := ResolvePolicyItem(x, verdict, now); Accounted(Apply(w, a).0, Tallied(t, w, a, r), r)
  {
    var (w', reply) := Apply(w, ResolvePolicyItem(x, verdict, now));
    if reply.Answered? {
      SettledAccounted(w, t, x, reply.status, x.kind + " decision for " + x.value, verdict, now, w', r);
    }
  }

  lemma AccountedStep(w: World, t: Tally, a: Action, r: Resource)
    requires Accounted(w, t, r)
    ensures Accounted(Apply(w, a).0, Tallied(t, w, a, r), r)
  {
    match a
    case CreateOrUpdate(_, _, _, _, _) => CreatedAccounted(w, t, a, r);
    case ResolveSecret(key, deny, value, now) => SecretAccounted(w, t, key, deny, value, now, r);
    case ResolvePolicyItem(x, verdict, now) => PolicyAccounted(w, t, x, verdict, now, r);
    case _ => assert Apply(w, a).0.db == w.db;
  }

  lemma {:induction false} AccountedRun(w: World, t: Tally, run: seq<Action>, r: Resource)
    requires Accounted(w, t, r)
    ensures Accounted(After(w, run), Tallies(t, w, run, r), r)
    decreases |run|
  {
    if run != [] {
      AccountedStep(w, t, run[0], r);
      AccountedRun(Apply(w, run[0]).0, Tallied(t, w, run[0], r), run[1..], r);
    }
  }

  // Request accounting: the resolved instances of an entry are as many as the resolutions of it, its instances as many
  // as its creations and the resolutions that found none pending, and unforced notices at most one and its denials.
  lemma RequestAccounting(run: seq<Action>, r: Resource)
    ensures var w, t := After(FRESH, run), Tallies(NOTHING, FRESH, run, r);
      && CountResolved(w.db.instances, r) == t.resolved
      && CountAll(w.db.instances, r) == t.created + t.foundNone
      && CountUnforced(w.db.notices, r) <= 1 + t.denied
  {
    AccountedRun(FRESH, NOTHING, run, r);
  }

  lemma ResolvedStays(w: World, a: Action, n: nat)
    requires n < |w.db.instances| && w.db.instances[n].resolved
    ensures n < |Apply(w, a).0.db.instances| && Apply(w, a).0.db.instances[n] == w.db.instances[n]
  {
  }

  // Resolved is terminal: a resolved instance is never touched again.
  lemma {:induction false} ResolvedIsTerminal(w: World, run: seq<Action>, n: nat)
    requires n < |w.db.instances| && w.db.instances[n].resolved
    ensures n < |After(w, run).db.instances| && After(w, run).db.instances[n] == w.db.instances[n]
    decreases |run|
  {
    if run != [] {
      ResolvedStays(w, run[0], n);
      ResolvedIsTerminal(Apply(w, run[0]).0, run[1..], n);
    }
  }
}
