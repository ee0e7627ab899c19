// The session manager (shared/codex_session_manager.py): conversations of an agent runtime bound to sessions, and the
// tasks of sessions.
module Manager {
  import opened Common
  import S = Sessions
  import T = Tasks
  import C = Capture

  // What the runtime answers to a new conversation: a thread id, which may be "" for none, or an exception.
  datatype Reply = Thread(id: string) | Failed

  datatype RuntimeCall = Start(prompt: string) | Continue(prompt: string, thread: string)

  datatype State = State(files: S.Files, index: seq<T.Task>, calls: seq<RuntimeCall>)

  datatype Action =
    | EnsureSession(key: string, hydrate: bool, prompt: string, reply: Reply, now: real)
    | HydrateSession(key: string, prompt: string, reply: Reply, now: real)
    | SendMessage(key: string, prompt: string, reply: Reply, now: real)
    | InvalidateSession(key: string, reason: string, now: real)
    | CreateTask(task: T.Task)
    | UpdateTask(id: string, c: T.Changes, now: real)
    | AppendNote(id: string, note: string, ref: string, now: real)
    | CaptureMessage(m: C.Message)
    | Restart(now: real)

  // The thread of a session's record, "" for none.
  function ThreadOf(files: S.Files, key: string): string {
    var sessions := S.LoadIndex(files).sessions;
    if key in sessions && sessions[key].threadId.Some? then sessions[key].threadId.value else ""
  }

  function RefsOf(files: S.Files, key: string): seq<string> {
    var sessions := S.LoadIndex(files).sessions;
    if key in sessions then sessions[key].taskRefs else []
  }

  function BindOps(key: string, reply: Reply, now: real): seq<S.Op> {
    if reply.Thread? && reply.id != "" then [S.Bind(key, reply.id, now)] else []
  }

  // The registry operations that an action comes down to.
  function RegistryOps(s: State, a: Action): seq<S.Op> {
    match a
    case EnsureSession(key, hydrate, _, reply, now) =>
      if hydrate && ThreadOf(s.files, key) == "" then [S.Ensure(key, now), S.Ensure(key, now)] + BindOps(key, reply, now)
      else [S.Ensure(key, now), S.MarkUsed(key, now)]
    case HydrateSession(key, _, reply, now) => [S.Ensure(key, now)] + BindOps(key, reply, now)
    case SendMessage(key, _, reply, now) =>
      if reply.Failed? then [S.Ensure(key, now)] else
        [S.Ensure(key, now)] + (if ThreadOf(s.files, key) == "" then BindOps(key, reply, now) else []) +
        [S.MarkUsed(key, now), S.Ensure(key, now)]
    case InvalidateSession(key, reason, now) => [S.Invalidate(key, reason, now)]
    case CreateTask(task) => [S.AddRef(task.sessionKey, task.id, task.updatedAt)]
    case CaptureMessage(m) =>
      if C.Judge(s.index, m) == C.Created then [S.AddRef(m.key, m.freshId, m.t3)] else []
    case Restart(now) => [S.Restart(now)]
    case _ => []
  }

  function RuntimeCalls(s: State, a: Action): seq<RuntimeCall> {
    match a
    case EnsureSession(key, hydrate, prompt, _, _) =>
      if hydrate && ThreadOf(s.files, key) == "" then [Start(prompt)] else []
    case HydrateSession(_, prompt, _, _) => [Start(prompt)]
    case SendMessage(key, prompt, _, _) =>
      if ThreadOf(s.files, key) != "" then [Continue(prompt, ThreadOf(s.files, key))] else [Start(prompt)]
    case _ => []
  }

  function IndexAfter(index: seq<T.Task>, a: Action): seq<T.Task> {
    match a
    case CreateTask(task) => index + [task]
    case UpdateTask(id, c, now) => C.Do(index, C.Update(id, c, now))
    case AppendNote(id, note, ref, now) => C.Do(index, C.Note(id, note, ref, now))
    case CaptureMessage(m) => C.Captured(index, m)
    case _ => index
  }

  function Do(s: State, a: Action): State {
    State(S.After(s.files, RegistryOps(s, a)), IndexAfter(s.index, a), s.calls + RuntimeCalls(s, a))
  }

  class CodexSessionManager {
    const registry: S.SessionRegistry
    const tasks: T.TaskStore
    var calls: seq<RuntimeCall>

    ghost function View(): State
      reads this, registry, tasks
    {
      State(registry.files, tasks.index, calls)
    }

    // A new manager over what an earlier one left; whatever threads there were are gone.
    constructor (registry: S.SessionRegistry, tasks: T.TaskStore, now: real)
      modifies registry
      ensures this.registry == registry && this.tasks == tasks && calls == []
      ensures registry.files == S.After(old(registry.files), [S.Restart(now)])
    {
      this.registry, this.tasks, this.calls := registry, tasks, [];
      new;
      registry.MarkRestartGeneration(now);
      AfterOne(old(registry.files), S.Restart(now));
    }

    method EnsureSession(key: string, hydrate: bool, prompt: string, reply: Reply, now: real)
      modifies this, registry
      ensures View() == Do(old(View()), Action.EnsureSession(key, hydrate, prompt, reply, now))
      ensures calls == old(calls) + if hydrate && ThreadOf(old(registry.files), key) == "" then [Start(prompt)] else []
    {
      ghost var was := registry.files;
      var record := registry.EnsureSession(key, now);
      AfterOne(was, S.Ensure(key, now));
      if hydrate && (record.threadId.None? || record.threadId.value == "") {
        HydrateSession(key, prompt, reply, now);
        AfterJoin(was, [S.Ensure(key, now)], [S.Ensure(key, now)] + BindOps(key, reply, now));
        assert [S.Ensure(key, now)] + ([S.Ensure(key, now)] + BindOps(key, reply, now))
            == [S.Ensure(key, now), S.Ensure(key, now)] + BindOps(key, reply, now);
      } else {
        ghost var mid := registry.files;
        var used := registry.MarkUsed(key, now);
        AfterOne(mid, S.MarkUsed(key, now));
        AfterJoin(was, [S.Ensure(key, now)], [S.MarkUsed(key, now)]);
      }
    }

    method HydrateSession(key: string, prompt: string, reply: Reply, now: real)
      modifies this, registry
      ensures View() == Do(old(View()), Action.HydrateSession(key, prompt, reply, now))
      ensures calls == old(calls) + [Start(prompt)]
    {
      ghost var was := registry.files;
      var record := registry.EnsureSession(key, now);
      AfterOne(was, S.Ensure(key, now));
      calls := calls + [Start(prompt)];
      BindIfNamed(key, reply, now);
      AfterJoin(was, [S.Ensure(key, now)], BindOps(key, reply, now));
    }

    // The binding that follows a new conversation; nothing when it raised.
    method BindIfNamed(key: string, reply: Reply, now: real)
      modifies registry
      ensures registry.files == S.After(old(registry.files), BindOps(key, reply, now))
    {
      if reply.Thread? && reply.id != "" {
        ghost var was := registry.files;
        var record := registry.BindThread(key, reply.id, now);
        AfterOne(was, S.Bind(key, reply.id, now));
      }
    }

    // `thread` is the id the caller is given, None when the runtime raised.
    method SendMessage(key: string, prompt: string, reply: Reply, now: real) returns (thread: Option<string>)
      modifies this, registry
      ensures View() == Do(old(View()), Action.SendMessage(key, prompt, reply, now))
      ensures var bound := ThreadOf(old(registry.files), key);
        calls == old(calls) + [if bound != "" then Continue(prompt, bound) else Start(prompt)]
      ensures thread == if reply.Failed? then None
                        else Some(if ThreadOf(old(registry.files), key) != "" then ThreadOf(old(registry.files), key) else reply.id)
    {
      ghost var was, ensure := registry.files, S.Ensure(key, now);
      var record := registry.EnsureSession(key, now);
      AfterOne(was, ensure);
      var bound := if record.threadId.Some? then record.threadId.value else "";
      ghost var binds: seq<S.Op> := [];
      if bound != "" {
        calls := calls + [Continue(prompt, bound)];
        if reply.Failed? { return None; }
      } else {
        calls := calls + [Start(prompt)];
        if reply.Failed? { return None; }
        BindIfNamed(key, reply, now);
        binds := BindOps(key, reply, now);
        bound := reply.id;
      }
      AfterJoin(was, [ensure], binds);
      ghost var mid := registry.files;
      var used := registry.MarkUsed(key, now);
      AfterOne(mid, S.MarkUsed(key, now));
      ghost var mid2 := registry.files;
      var last := registry.EnsureSession(key, now);
      AfterOne(mid2, ensure);
      AfterJoin(mid, [S.MarkUsed(key, now)], [ensure]);
      AfterJoin(was, [ensure] + binds, [S.MarkUsed(key, now), ensure]);
      thread := Some(bound);
    }

    method InvalidateSession(key: string, reason: string, now: real)
      modifies this, registry
      ensures View() == Do(old(View()), Action.InvalidateSession(key, reason, now)) && calls == old(calls)
    {
      ghost var was := registry.files;
      var record := registry.InvalidateSession(key, reason, now);
      AfterOne(was, S.Invalidate(key, reason, now));
    }

    method CreateTask(id: string, title: string, sessionKey: string, details: string, owner: string, status: string, refs: seq<string>, now: real)
      returns (task: T.Task)
      requires forall i :: 0 <= i < |tasks.index| ==> tasks.index[i].id != id
      modifies this, registry, tasks
      ensures task == T.Task(id, title, details, status, owner, sessionKey, refs, now, now)
      ensures View() == Do(old(View()), Action.CreateTask(task))
      ensures tasks.index == old(tasks.index) + [task] && calls == old(calls)
    {
      task := tasks.CreateTask(id, title, sessionKey, details, owner, status, refs, now);
      ghost var was := registry.files;
      var record := registry.AddTaskRef(sessionKey, task.id, now);
      AfterOne(was, S.AddRef(sessionKey, task.id, now));
    }

    method CaptureMessage(m: C.Message) returns (verdict: C.Verdict)
      requires forall i :: 0 <= i < |tasks.index| ==> tasks.index[i].id != m.freshId
      requires T.UniqueIds(tasks.index)
      modifies this, registry, tasks
      ensures verdict == C.Judge(old(tasks.index), m)
      ensures View() == Do(old(View()), Action.CaptureMessage(m))
    {
      CaptureIs(View(), m);
      var body := C.Body(m.text);
      if body == "" || body[0] == '/' { return C.Skipped; }
      var latest := T.Latest(tasks.index, m.key);
      if latest.Some? {
        var n := latest.value;
        if m.t2 - tasks.index[n].updatedAt <= C.WINDOW {
          T.UniqueIndex(tasks.index, n);
          var noted := tasks.AppendNote(tasks.index[n].id, m.channel + ":" + m.principal + ": " + body, C.Ref(m), m.t3);
          return C.NotedOn(n);
        }
      }
      var task := CreateTask(m.freshId, C.Title(body), m.key, "Initial request:\n" + body, "codex", "open", [C.Ref(m)], m.t3);
      verdict := C.Created;
    }
  }

  lemma CaptureIs(s: State, m: C.Message)
    ensures Do(s, Action.CaptureMessage(m)) ==
              match C.Judge(s.index, m)
              case Skipped => s
              case NotedOn(n) => s.(index := s.index[n := T.Noted(s.index[n], C.NoteOf(m), C.Ref(m), m.t3)])
              case Created => Do(s, Action.CreateTask(C.NewTask(m)))
  {
    assert s.calls + [] == s.calls;
  }

  lemma AfterOne(files: S.Files, op: S.Op)
    ensures S.After(files, [op]) == S.Do(files, op)
  {
    assert S.After(S.Do(files, op), [op][1..]) == S.Do(files, op);
  }

  lemma AfterJoin(files: S.Files, a: seq<S.Op>, b: seq<S.Op>)
    ensures S.After(files, a + b) == S.After(S.After(files, a), b)
  {
    FoldJoin(S.Do, files, a, b);
  }
}
