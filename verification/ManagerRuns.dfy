// What holds of the session manager after any run of calls that do not overlap.
module ManagerRuns {
  import opened Common
  import S = Sessions
  import T = Tasks
  import C = Capture
  import opened Manager

  // ---- What a registry operation does to the thread and the task refs of a session ----

  function ThreadAfter(thread: string, op: S.Op, key: string): string {
    match op
    case Bind(k, id, _) => if k == key then id else thread
    case Invalidate(k, _, _) => if k == key then "" else thread
    case Restart(_) => ""
    case _ => thread
  }

  function RefsAfter(refs: seq<string>, op: S.Op, key: string): seq<string> {
    if op.AddRef? && op.key == key && op.task !in refs then refs + [op.task] else refs
  }

  predicate NotIndexKey(op: S.Op) { op.Restart? || op.key != S.INDEX_KEY }

  lemma OpEffect(files: S.Files, op: S.Op, key: string)
    requires S.Coherent(files) && NotIndexKey(op)
    ensures ThreadOf(S.Do(files, op), key) == ThreadAfter(ThreadOf(files, key), op, key)
    ensures RefsOf(S.Do(files, op), key) == RefsAfter(RefsOf(files, key), op, key)
  {
    if op.Restart? {
      S.RestartCoherent(files, op.now);
    } else {
      S.StepIndex(files, op);
    }
  }

  function ThreadAfterAll(thread: string, ops: seq<S.Op>, key: string): string
    decreases |ops|
  {
    if ops == [] then thread else ThreadAfterAll(ThreadAfter(thread, ops[0], key), ops[1..], key)
  }

  function RefsAfterAll(refs: seq<string>, ops: seq<S.Op>, key: string): seq<string>
    decreases |ops|
  {
    if ops == [] then refs else RefsAfterAll(RefsAfter(refs, ops[0], key), ops[1..], key)
  }

  lemma {:induction false} OpsEffect(files: S.Files, ops: seq<S.Op>, key: string)
    requires S.Coherent(files) && forall i :: 0 <= i < |ops| ==> NotIndexKey(ops[i])
    ensures S.Coherent(S.After(files, ops))
    ensures ThreadOf(S.After(files, ops), key) == ThreadAfterAll(ThreadOf(files, key), ops, key)
    ensures RefsOf(S.After(files, ops), key) == RefsAfterAll(RefsOf(files, key), ops, key)
    decreases |ops|
  {
    if ops != [] {
      OpEffect(files, ops[0], key);
      S.StepCoherent(files, ops[0]);
      OpsEffect(S.Do(files, ops[0]), ops[1..], key);
    }
  }

  // ---- Runs ----

  predicate HasId(index: seq<T.Task>, id: string) {
    exists i :: 0 <= i < |index| && index[i].id == id
  }

  // Keys other than the one that names the index file, and fresh ids for new tasks.
  predicate Proper(s: State, a: Action) {
    match a
    case EnsureSession(key, _, _, _, _) => key != S.INDEX_KEY
    case HydrateSession(key, _, _, _) => key != S.INDEX_KEY
    case SendMessage(key, _, _, _) => key != S.INDEX_KEY
    case InvalidateSession(key, _, _) => key != S.INDEX_KEY
    case CreateTask(task) => task.sessionKey != S.INDEX_KEY && !HasId(s.index, task.id)
    case CaptureMessage(m) => m.key != S.INDEX_KEY && !HasId(s.index, m.freshId)
    case _ => true
  }

  function After(s: State, run: seq<Action>): State {
    if run == [] then s else Do(After(s, run[..|run| - 1]), run[|run| - 1])
  }

  ghost predicate IsRun(s: State, run: seq<Action>) {
    forall i :: 0 <= i < |run| ==> Proper(After(s, run[..i]), run[i])
  }

  lemma RunPrefix(s: State, run: seq<Action>)
    requires run != [] && IsRun(s, run)
    ensures IsRun(s, run[..|run| - 1]) && Proper(After(s, run[..|run| - 1]), run[|run| - 1])
  {
    var before := run[..|run| - 1];
    forall i | 0 <= i < |before| ensures Proper(After(s, before[..i]), before[i]) {
      assert before[..i] == run[..i];
    }
  }

  // ---- Thread discipline ----

  // The thread a session is bound to, told from the calls alone: a conversation opened for it binds it if it was
  // hydrated, or if it had no thread; its invalidation and a restart of the manager unbind it.
  function BoundAfter(bound: string, a: Action, key: string): string {
    match a
    case EnsureSession(k, hydrate, _, reply, _) => if k == key && hydrate && bound == "" then Opened(bound, reply) else bound
    case HydrateSession(k, _, reply, _) => if k == key then Opened(bound, reply) else bound
    case SendMessage(k, _, reply, _) => if k == key && bound == "" then Opened(bound, reply) else bound
    case InvalidateSession(k, _, _) => if k == key then "" else bound
    case Restart(_) => ""
    case _ => bound
  }

  function Opened(bound: string, reply: Reply): string {
    if reply.Thread? && reply.id != "" then reply.id else bound
  }

  function Bound(run: seq<Action>, key: string): string {
    if run == [] then "" else BoundAfter(Bound(run[..|run| - 1], key), run[|run| - 1], key)
  }

  predicate Leaves(op: S.Op) { op.Ensure? || op.MarkUsed? || op.AddRef? }

  // Operations that leave threads alone, a possible binding, and more operations that leave threads alone.
  lemma {:induction false} BindingEffect(thread: string, a: seq<S.Op>, k: string, reply: Reply, now: real, b: seq<S.Op>, key: string)
    requires (forall i :: 0 <= i < |a| ==> Leaves(a[i])) && (forall i :: 0 <= i < |b| ==> Leaves(b[i]))
    ensures ThreadAfterAll(thread, a + BindOps(k, reply, now) + b, key) == if k == key then Opened(thread, reply) else thread
    decreases |a|
  {
    var ops := a + BindOps(k, reply, now) + b;
    if a != [] {
      BindingEffect(thread, a[1..], k, reply, now, b, key);
      assert ops[1..] == a[1..] + BindOps(k, reply, now) + b;
    } else if BindOps(k, reply, now) != [] {
      assert ops[1..] == b;
      LeavingEffect(ThreadAfter(thread, ops[0], key), b, key);
    } else {
      assert ops == b;
      LeavingEffect(thread, b, key);
    }
  }

  lemma {:induction false} LeavingEffect(thread: string, ops: seq<S.Op>, key: string)
    requires forall i :: 0 <= i < |ops| ==> Leaves(ops[i])
    ensures ThreadAfterAll(thread, ops, key) == thread
    decreases |ops|
  {
    if ops != [] {
      LeavingEffect(thread, ops[1..], key);
    }
  }

  lemma OpsBind(s: State, a: Action, key: string)
    ensures ThreadAfterAll(ThreadOf(s.files, key), RegistryOps(s, a), key) == BoundAfter(ThreadOf(s.files, key), a, key)
  {
    var thread, ops := ThreadOf(s.files, key), RegistryOps(s, a);
    match a
    case EnsureSession(k, hydrate, _, reply, now) =>
      if hydrate && ThreadOf(s.files, k) == "" {
        var e := S.Ensure(k, now);
        BindingEffect(thread, [e, e], k, reply, now, [], key);
        assert ops == [e, e] + BindOps(k, reply, now) + [];
      } else {
        LeavingEffect(thread, ops, key);
      }
    case HydrateSession(k, _, reply, now) =>
      BindingEffect(thread, [S.Ensure(k, now)], k, reply, now, [], key);
      assert ops == [S.Ensure(k, now)] + BindOps(k, reply, now) + [];
    case SendMessage(k, _, reply, now) =>
      if reply.Thread? && ThreadOf(s.files, k) == "" {
        BindingEffect(thread, [S.Ensure(k, now)], k, reply, now, [S.MarkUsed(k, now), S.Ensure(k, now)], key);
      } else {
        LeavingEffect(thread, ops, key);
      }
    case InvalidateSession(k, reason, now) => assert ops[1..] == [];
    case Restart(now) => assert ops[1..] == [];
    case _ => LeavingEffect(thread, ops, key);
  }

  // What each call does to the threads: opening a conversation binds its session, if it names a thread and the session was
  // hydrated or had none; invalidating a session unbinds it, and a restart all sessions; nothing else does anything.
  lemma {:induction false} ThreadsTell(s: State, a: Action, key: string)
    requires S.Coherent(s.files) && Proper(s, a)
    ensures var before, after := ThreadOf(s.files, key), ThreadOf(Do(s, a).files, key);
      after == match a
        case EnsureSession(k, hydrate, _, Thread(id), _) => if k == key && hydrate && before == "" then id else before
        case HydrateSession(k, _, Thread(id), _) => if k == key && id != "" then id else before
        case SendMessage(k, _, Thread(id), _) => if k == key && before == "" then id else before
        case InvalidateSession(k, _, _) => if k == key then "" else before
        case Restart(_) => ""
        case _ => before
  {
    OpsBind(s, a, key);
    OpsAvoidIndex(s, a);
    OpsEffect(s.files, RegistryOps(s, a), key);
  }

  predicate UsedAt(files: S.Files, key: string, now: real) {
    var sessions := S.LoadIndex(files).sessions;
    key in sessions && sessions[key].lastUsed == now
  }

  predicate Touches(op: S.Op) { op.MarkUsed? || op.Bind? || op.Invalidate? || op.AddRef? }

  lemma {:induction false} OpsTouch(files: S.Files, ops: seq<S.Op>, key: string, now: real)
    requires S.Coherent(files) && key != S.INDEX_KEY
    requires forall i :: 0 <= i < |ops| ==> !ops[i].Restart? && ops[i].key == key && ops[i].now == now
    requires UsedAt(files, key, now) || exists i :: 0 <= i < |ops| && Touches(ops[i])
    ensures UsedAt(S.After(files, ops), key, now)
    decreases |ops|
  {
    if ops != [] {
      S.StepIndex(files, ops[0]);
      S.StepCoherent(files, ops[0]);
      if !UsedAt(files, key, now) && !Touches(ops[0]) {
        var i :| 0 <= i < |ops| && Touches(ops[i]);
        assert ops[1..][i - 1] == ops[i];
      }
      OpsTouch(S.Do(files, ops[0]), ops[1..], key, now);
    }
  }

  // A session that was ensured without a new conversation, or sent a message that did not raise, was last used then.
  lemma {:induction false} UseTells(s: State, a: Action)
    requires S.Coherent(s.files) && Proper(s, a)
    requires a.EnsureSession? || a.SendMessage?
    requires a.EnsureSession? ==> !a.hydrate || ThreadOf(s.files, a.key) != ""
    requires a.SendMessage? ==> a.reply.Thread?
    ensures UsedAt(Do(s, a).files, a.key, a.now)
  {
    var ops := RegistryOps(s, a);
    var n := |ops|;
    assert if a.EnsureSession? then ops[1].MarkUsed? else ops[n - 2].MarkUsed?;
    OpsTouch(s.files, ops, a.key, a.now);
  }

  lemma OpsAvoidIndex(s: State, a: Action)
    requires Proper(s, a)
    ensures forall i :: 0 <= i < |RegistryOps(s, a)| ==> NotIndexKey(RegistryOps(s, a)[i])
  {
  }

  // In every state the registry holds the bound thread, so that a message is sent to that thread if there is one and
  // opens a new conversation exactly when there is none.
  lemma {:induction false} ThreadDiscipline(s: State, run: seq<Action>, key: string)
    requires S.Coherent(s.files) && ThreadOf(s.files, key) == "" && IsRun(s, run)
    ensures S.Coherent(After(s, run).files) && ThreadOf(After(s, run).files, key) == Bound(run, key)
    ensures forall prompt, reply, now ::
      RuntimeCalls(After(s, run), SendMessage(key, prompt, reply, now)) ==
        [if Bound(run, key) != "" then Continue(prompt, Bound(run, key)) else Start(prompt)]
    decreases |run|
  {
    if run != [] {
      var before, a := run[..|run| - 1], run[|run| - 1];
      RunPrefix(s, run);
      ThreadDiscipline(s, before, key);
      var t := After(s, before);
      OpsBind(t, a, key);
      OpsAvoidIndex(t, a);
      OpsEffect(t.files, RegistryOps(t, a), key);
    }
  }

  predicate Opens(a: Action, key: string, thread: string) {
    (a.EnsureSession? || a.HydrateSession? || a.SendMessage?) && a.key == key && a.reply == Thread(thread)
  }

  predicate Clears(a: Action, key: string) {
    a.Restart? || (a.InvalidateSession? && a.key == key)
  }

  // From the i-th call on, the session has been bound to the thread that call opened.
  ghost predicate BoundSince(run: seq<Action>, key: string, i: nat)
    requires i < |run|
  {
    Opens(run[i], key, Bound(run, key)) &&
    forall j :: i < j < |run| ==> !Clears(run[j], key) && Bound(run[..j], key) == Bound(run, key)
  }

  // The bound thread is the one most recently bound, with no invalidation of the session and no restart since.
  lemma {:induction false} BoundIsMostRecent(run: seq<Action>, key: string) returns (i: nat)
    requires Bound(run, key) != ""
    ensures i < |run| && BoundSince(run, key, i)
    decreases |run|
  {
    var n := |run| - 1;
    var before := run[..n];
    if Bound(before, key) == Bound(run, key) && !Clears(run[n], key) {
      i := BoundIsMostRecent(before, key);
      forall j | i < j < |run|
        ensures !Clears(run[j], key) && Bound(run[..j], key) == Bound(run, key)
      {
        if j < n {
          assert before[..j] == run[..j] && before[j] == run[j];
        }
      }
    } else {
      i := n;
    }
  }

  // ---- Task refs ----

  function SessionIds(index: seq<T.Task>, key: string): seq<string> {
    if index == [] then [] else
      var last := index[|index| - 1];
      SessionIds(index[..|index| - 1], key) + if last.sessionKey == key then [last.id] else []
  }

  lemma {:induction false} SessionIdsAreIds(index: seq<T.Task>, key: string)
    ensures forall id :: id in SessionIds(index, key) ==> HasId(index, id)
    ensures T.UniqueIds(index) ==> NoDup(SessionIds(index, key))
  {
    if index != [] {
      var n := |index| - 1;
      SessionIdsAreIds(index[..n], key);
      forall id | id in SessionIds(index[..n], key) ensures HasId(index, id) {
        var i :| 0 <= i < n && index[..n][i].id == id;
        assert index[i].id == id;
      }
      assert T.UniqueIds(index) ==> !HasId(index[..n], index[n].id);
    }
  }

  lemma {:induction false} SessionIdsAfterUpdate(index: seq<T.Task>, n: nat, t: T.Task, key: string)
    requires n < |index| && t.id == index[n].id && t.sessionKey == index[n].sessionKey
    ensures SessionIds(index[n := t], key) == SessionIds(index, key)
  {
    var last := |index| - 1;
    if n < last {
      SessionIdsAfterUpdate(index[..last], n, t, key);
      assert index[n := t][..last] == index[..last][n := t];
    } else {
      assert index[n := t][..last] == index[..last];
    }
  }

  lemma SessionIdsAfterAppend(index: seq<T.Task>, t: T.Task, key: string)
    ensures SessionIds(index + [t], key) == SessionIds(index, key) + if t.sessionKey == key then [t.id] else []
  {
    assert (index + [t])[..|index|] == index;
  }

  ghost predicate RefsMatch(s: State, key: string) {
    T.UniqueIds(s.index) && RefsOf(s.files, key) == SessionIds(s.index, key)
  }

  lemma UpdatesKeepIds(index: seq<T.Task>, op: C.Op, key: string)
    requires T.UniqueIds(index) && (op.Update? || op.Note?)
    ensures T.UniqueIds(C.Do(index, op)) && SessionIds(C.Do(index, op), key) == SessionIds(index, key)
  {
    var n := T.IndexOf(index, op.id);
    if n < |index| {
      UpdateKeepsIds(index, n, C.Do(index, op)[n], key);
    }
  }

  lemma CaptureKeepsIds(s: State, m: C.Message, key: string)
    requires T.UniqueIds(s.index) && !HasId(s.index, m.freshId)
    ensures T.UniqueIds(C.Captured(s.index, m))
    ensures SessionIds(C.Captured(s.index, m), key) ==
            RefsAfterAll(SessionIds(s.index, key), RegistryOps(s, CaptureMessage(m)), key)
  {
    CaptureRefs(s, m, key);
    match C.Judge(s.index, m)
    case Created => AppendAddsRef(s.index, C.NewTask(m), m.t3, key);
    case NotedOn(n) => UpdateKeepsIds(s.index, n, C.Captured(s.index, m)[n], key);
    case Skipped =>
  }

  lemma CaptureRefs(s: State, m: C.Message, key: string)
    ensures RefsAfterAll(SessionIds(s.index, key), RegistryOps(s, CaptureMessage(m)), key) ==
              if C.Judge(s.index, m) == C.Created then
                RefsAfterAll(SessionIds(s.index, key), [S.AddRef(m.key, m.freshId, m.t3)], key)
              else SessionIds(s.index, key)
    ensures var v := C.Judge(s.index, m);
      && (v.NotedOn? ==> C.Captured(s.index, m) == s.index[v.n := C.Captured(s.index, m)[v.n]])
      && (v.NotedOn? ==> var t := C.Captured(s.index, m)[v.n]; t.id == s.index[v.n].id && t.sessionKey == s.index[v.n].sessionKey)
      && (v.Created? ==> C.Captured(s.index, m) == s.index + [C.NewTask(m)])
      && (v.Skipped? ==> C.Captured(s.index, m) == s.index)
  {
  }

  lemma UpdateKeepsIds(index: seq<T.Task>, n: nat, t: T.Task, key: string)
    requires T.UniqueIds(index) && n < |index| && t.id == index[n].id && t.sessionKey == index[n].sessionKey
    ensures T.UniqueIds(index[n := t]) && SessionIds(index[n := t], key) == SessionIds(index, key)
  {
    SessionIdsAfterUpdate(index, n, t, key);
  }

  lemma AppendAddsRef(index: seq<T.Task>, t: T.Task, now: real, key: string)
    requires T.UniqueIds(index) && !HasId(index, t.id)
    ensures T.UniqueIds(index + [t])
    ensures SessionIds(index + [t], key) == RefsAfterAll(SessionIds(index, key), [S.AddRef(t.sessionKey, t.id, now)], key)
  {
    SessionIdsAreIds(index, key);
    SessionIdsAfterAppend(index, t, key);
    assert [S.AddRef(t.sessionKey, t.id, now)][1..] == [];
  }

  lemma IndexStep(s: State, a: Action, key: string)
    requires T.UniqueIds(s.index) && Proper(s, a)
    ensures T.UniqueIds(Do(s, a).index)
    ensures SessionIds(Do(s, a).index, key) == RefsAfterAll(SessionIds(s.index, key), RegistryOps(s, a), key)
  {
    match a
    case CreateTask(task) => AppendAddsRef(s.index, task, task.updatedAt, key);
    case CaptureMessage(m) => CaptureKeepsIds(s, m, key);
    case UpdateTask(id, c, now) => UpdatesKeepIds(s.index, C.Update(id, c, now), key);
    case AppendNote(id, note, ref, now) => UpdatesKeepIds(s.index, C.Note(id, note, ref, now), key);
    case _ => NoRefOps(SessionIds(s.index, key), RegistryOps(s, a), key);
  }

  lemma {:induction false} NoRefOps(refs: seq<string>, ops: seq<S.Op>, key: string)
    requires forall i :: 0 <= i < |ops| ==> !ops[i].AddRef?
    ensures RefsAfterAll(refs, ops, key) == refs
    decreases |ops|
  {
    if ops != [] {
      NoRefOps(refs, ops[1..], key);
    }
  }

  // The task refs of a session are exactly the ids of the tasks made for it, in the order in which they were made and
  // without duplicates; invalidations and restarts do not lose them.
  lemma {:induction false} TaskRefsAreItsTasks(s: State, run: seq<Action>, key: string)
    requires S.Coherent(s.files) && RefsMatch(s, key) && IsRun(s, run)
    ensures S.Coherent(After(s, run).files) && RefsMatch(After(s, run), key) && NoDup(RefsOf(After(s, run).files, key))
    decreases |run|
  {
    if run == [] {
      SessionIdsAreIds(s.index, key);
    } else {
      var before, a := run[..|run| - 1], run[|run| - 1];
      RunPrefix(s, run);
      TaskRefsAreItsTasks(s, before, key);
      var t := After(s, before);
      OpsAvoidIndex(t, a);
      OpsEffect(t.files, RegistryOps(t, a), key);
      IndexStep(t, a, key);
      SessionIdsAreIds(After(s, run).index, key);
    }
  }
}
