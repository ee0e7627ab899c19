// The session registry (shared/session_registry.py): an index file and one file per session, side by side in a directory.
module Sessions {
  import opened Common

  datatype Record = Record(
    key: string, threadId: Option<string>, status: string, lastUsed: real, taskRefs: seq<string>, generation: int)

  // What a file holds.
  datatype Doc = Index(generation: int, sessions: map<string, Record>) | Session(record: Record)

  const INDEX_KEY := "sessions"

  // The index is sessions/sessions.json and a session's file sessions/<key>.json, so one key names the index itself.
  datatype Path = IndexPath | RecordPath(key: string)

  function SessionPath(key: string): Path {
    if key == INDEX_KEY then IndexPath else RecordPath(key)
  }

  function PathText(p: Path): string {
    "sessions/" + (if p.IndexPath? then "sessions" else p.key) + ".json"
  }

  // Different paths of sessions are different texts, and each is the one that session_file builds from its key.
  lemma PathTexts(a: string, b: string)
    ensures PathText(IndexPath) == "sessions/sessions.json"
    ensures PathText(SessionPath(a)) == "sessions/" + a + ".json"
    ensures PathText(SessionPath(a)) == PathText(SessionPath(b)) ==> a == b
  {
    var ta, tb := PathText(SessionPath(a)), PathText(SessionPath(b));
    assert a == ta[9..|ta| - 5] && b == tb[9..|tb| - 5];
  }

  type Files = map<Path, Doc>

  // load_index: a session record read as an index has its generation and no sessions; ensure_layout supplies a file
  // that is missing.
  function LoadIndex(files: Files): Doc {
    if IndexPath !in files then Index(0, map[]) else
      match files[IndexPath]
      case Index(_, _) => files[IndexPath]
      case Session(r) => Index(r.generation, map[])
  }

  // _update_session: the record into the index, then into its own file.
  function Saved(files: Files, r: Record): Files {
    var index := LoadIndex(files);
    files[IndexPath := index.(sessions := index.sessions[r.key := r])][SessionPath(r.key) := Session(r)]
  }

  function EnsuredRecord(files: Files, key: string, now: real): Record {
    var index := LoadIndex(files);
    if key in index.sessions then index.sessions[key].(key := key) else Record(key, None, "new", now, [], index.generation)
  }

  function Ensured(files: Files, key: string, now: real): Files {
    Saved(files, EnsuredRecord(files, key, now))
  }

  // An operation on a session: ensure it, change its record, save it.
  function Changed(files: Files, key: string, now: real, change: Record -> Record): Files {
    Saved(Ensured(files, key, now), change(EnsuredRecord(files, key, now)))
  }

  function Bound(thread: string, now: real): Record -> Record {
    (r: Record) => r.(threadId := Some(thread), status := "active", lastUsed := now)
  }

  function Invalidated(reason: string, now: real): Record -> Record {
    (r: Record) => r.(threadId := None, status := "stale:" + reason, lastUsed := now)
  }

  function WithRef(task: string, now: real): Record -> Record {
    (r: Record) => r.(taskRefs := if task in r.taskRefs then r.taskRefs else r.taskRefs + [task], lastUsed := now)
  }

  function Used(now: real): Record -> Record {
    (r: Record) => r.(lastUsed := now)
  }

  function Stale(r: Record, generation: int, now: real): Record {
    r.(threadId := None, status := "stale:restart", generation := generation, lastUsed := now)
  }

  function KeyOf(p: Path): string {
    if p.IndexPath? then INDEX_KEY else p.key
  }

  predicate IsFileOf(p: Path, sessions: map<string, Record>) {
    p == SessionPath(KeyOf(p)) && KeyOf(p) in sessions
  }

  // The files with every session of an index written to its own.
  function WithSessions(files: Files, sessions: map<string, Record>): Files {
    map p | p in files.Keys + (set k | k in sessions :: SessionPath(k)) ::
      if IsFileOf(p, sessions) then Session(sessions[KeyOf(p)]) else files[p]
  }

  lemma FileAt(files: Files, sessions: map<string, Record>, p: Path)
    ensures p in WithSessions(files, sessions) <==> p in files || IsFileOf(p, sessions)
    ensures p in WithSessions(files, sessions) ==>
              WithSessions(files, sessions)[p] == if IsFileOf(p, sessions) then Session(sessions[KeyOf(p)]) else files[p]
  {
    if IsFileOf(p, sessions) {
      assert KeyOf(p) in sessions;
    }
  }

  function AllStale(sessions: map<string, Record>, generation: int, now: real): map<string, Record> {
    map k | k in sessions :: Stale(sessions[k], generation, now)
  }

  function Restarted(files: Files, now: real): Files {
    var index := LoadIndex(files);
    var next := index.generation + 1;
    var sessions := AllStale(index.sessions, next, now);
    WithSessions(files, sessions)[IndexPath := Index(next, sessions)]
  }

  class SessionRegistry {
    var files: Files

    constructor (files: Files)
      ensures this.files == if IndexPath in files then files else files[IndexPath := Index(0, map[])]
    {
      this.files := if IndexPath in files then files else files[IndexPath := Index(0, map[])];
    }

    method UpdateSession(r: Record)
      modifies this
      ensures files == Saved(old(files), r)
    {
      var index := LoadIndex(files);
      files := files[IndexPath := index.(sessions := index.sessions[r.key := r])];
      files := files[SessionPath(r.key) := Session(r)];
    }

    method EnsureSession(key: string, now: real) returns (r: Record)
      modifies this
      ensures r == EnsuredRecord(old(files), key, now) && files == Ensured(old(files), key, now)
      ensures var index := LoadIndex(old(files));
        r == if key in index.sessions then index.sessions[key].(key := key) else Record(key, None, "new", now, [], index.generation)
    {
      var index := LoadIndex(files);
      if key in index.sessions {
        var existing := index.sessions[key];
        r := Record(key, existing.threadId, existing.status, existing.lastUsed, existing.taskRefs, existing.generation);
      } else {
        r := Record(key, None, "new", now, [], index.generation);
      }
      UpdateSession(r);
    }

    method MarkUsed(key: string, now: real) returns (r: Record)
      modifies this
      ensures r == EnsuredRecord(old(files), key, now).(lastUsed := now)
      ensures r == Used(now)(EnsuredRecord(old(files), key, now)) && files == Changed(old(files), key, now, Used(now))
    {
      r := EnsureSession(key, now);
      r := r.(lastUsed := now);
      UpdateSession(r);
    }

    method BindThread(key: string, thread: string, now: real) returns (r: Record)
      modifies this
      ensures r == EnsuredRecord(old(files), key, now).(threadId := Some(thread), status := "active", lastUsed := now)
      ensures r == Bound(thread, now)(EnsuredRecord(old(files), key, now))
      ensures files == Changed(old(files), key, now, Bound(thread, now))
    {
      r := EnsureSession(key, now);
      r := r.(threadId := Some(thread), status := "active", lastUsed := now);
      UpdateSession(r);
    }

    method InvalidateSession(key: string, reason: string, now: real) returns (r: Record)
      modifies this
      ensures r == EnsuredRecord(old(files), key, now).(threadId := None, status := "stale:" + reason, lastUsed := now)
      ensures r == Invalidated(reason, now)(EnsuredRecord(old(files), key, now))
      ensures files == Changed(old(files), key, now, Invalidated(reason, now))
    {
      r := EnsureSession(key, now);
      r := r.(threadId := None, status := "stale:" + reason, lastUsed := now);
      UpdateSession(r);
    }

    method AddTaskRef(key: string, task: string, now: real) returns (r: Record)
      modifies this
      ensures var was := EnsuredRecord(old(files), key, now);
        r == was.(taskRefs := was.taskRefs + (if task in was.taskRefs then [] else [task]), lastUsed := now)
      ensures r == WithRef(task, now)(EnsuredRecord(old(files), key, now))
      ensures files == Changed(old(files), key, now, WithRef(task, now))
    {
      r := EnsureSession(key, now);
      var refs := r.taskRefs;
      if task !in refs {
        refs := refs + [task];
      }
      r := r.(taskRefs := refs, lastUsed := now);
      UpdateSession(r);
    }

    // The loop of mark_restart_generation over the records of the index.
    method WriteStale(was: map<string, Record>, next: int, now: real) returns (sessions: map<string, Record>)
      modifies this
      ensures sessions == AllStale(was, next, now) && files == WithSessions(old(files), sessions)
    {
      sessions := was;
      var todo := was.Keys;
      ghost var done: set<string> := {};
      NothingStale(files, was, next, now);
      while todo != {}
        invariant todo == was.Keys - done && done <= was.Keys && todo <= sessions.Keys
        invariant sessions == StaleIn(was, done, next, now)
        invariant files == WithSessions(old(files), Only(StaleIn(was, done, next, now), done))
        decreases |todo|
      {
        var k :| k in todo;
        OneMoreStale(old(files), was, done, k, next, now);
        var updated := Stale(sessions[k], next, now);
        sessions := sessions[k := updated];
        files := files[SessionPath(k) := Session(updated)];
        todo, done := todo - {k}, done + {k};
      }
      EveryStale(was, done, next, now);
    }

    method MarkRestartGeneration(now: real)
      modifies this
      ensures files == Restarted(old(files), now)
    {
      var index := LoadIndex(files);
      var next := index.generation + 1;
      var sessions := WriteStale(index.sessions, next, now);
      files := files[IndexPath := Index(next, sessions)];
    }
  }

  ghost function Only(sessions: map<string, Record>, keys: set<string>): map<string, Record> {
    map k | k in sessions && k in keys :: sessions[k]
  }

  // The records of an index with those of some keys marked stale.
  ghost function StaleIn(was: map<string, Record>, keys: set<string>, next: int, now: real): map<string, Record> {
    map k | k in was :: if k in keys then Stale(was[k], next, now) else was[k]
  }

  lemma NothingStale(files: Files, was: map<string, Record>, next: int, now: real)
    ensures StaleIn(was, {}, next, now) == was
    ensures WithSessions(files, Only(StaleIn(was, {}, next, now), {})) == files
  {
    assert Only(StaleIn(was, {}, next, now), {}) == map[];
    NoMoreFiles(files);
  }

  lemma OneMoreStale(files: Files, was: map<string, Record>, done: set<string>, key: string, next: int, now: real)
    requires key in was && key !in done
    ensures var before, after := StaleIn(was, done, next, now), StaleIn(was, done + {key}, next, now);
      && key in before
      && before[key := Stale(before[key], next, now)] == after && after.Keys == was.Keys
      && WithSessions(files, Only(before, done))[SessionPath(key) := Session(Stale(before[key], next, now))]
         == WithSessions(files, Only(after, done + {key}))
  {
    var before, after := StaleIn(was, done, next, now), StaleIn(was, done + {key}, next, now);
    OneMoreFile(files, Only(before, done), key, after[key]);
    assert Only(after, done + {key}) == Only(before, done)[key := after[key]];
  }

  lemma EveryStale(was: map<string, Record>, done: set<string>, next: int, now: real)
    requires done == was.Keys
    ensures var all := StaleIn(was, done, next, now); all == AllStale(was, next, now) && Only(all, done) == all
  {
  }

  lemma NoMoreFiles(files: Files)
    ensures WithSessions(files, map[]) == files
  {
    forall p ensures p in WithSessions(files, map[]) <==> p in files { FileAt(files, map[], p); }
  }

  lemma OneMoreFile(files: Files, sessions: map<string, Record>, key: string, r: Record)
    ensures WithSessions(files, sessions)[SessionPath(key) := Session(r)] == WithSessions(files, sessions[key := r])
  {
    var a, b := WithSessions(files, sessions)[SessionPath(key) := Session(r)], WithSessions(files, sessions[key := r]);
    forall p
      ensures p in a <==> p in b
      ensures p in a && p in b ==> a[p] == b[p]
    {
      FileAt(files, sessions, p);
      FileAt(files, sessions[key := r], p);
      assert IsFileOf(p, sessions[key := r]) <==> IsFileOf(p, sessions) || p == SessionPath(key);
    }
  }

  // ---- What every operation keeps ----

  ghost predicate RecordOk(index: Doc, files: Files, key: string)
    requires index.Index? && key in index.sessions
  {
    var r := index.sessions[key];
    && key != INDEX_KEY && r.key == key && r.generation == index.generation
    && SessionPath(key) in files && files[SessionPath(key)] == Session(r)
    && (r.threadId.Some? <==> r.status == "active")
  }

  // The index is one, and each session's file is its index record, of the index's generation, with a thread exactly
  // when it is active.
  ghost predicate Coherent(files: Files) {
    && IndexPath in files && files[IndexPath].Index?
    && forall k :: k in files[IndexPath].sessions ==> RecordOk(files[IndexPath], files, k)
  }

  ghost predicate GoodRecord(r: Record, key: string, generation: int) {
    key != INDEX_KEY && r.key == key && r.generation == generation && (r.threadId.Some? <==> r.status == "active")
  }

  lemma SavedCoherent(files: Files, r: Record)
    requires Coherent(files) && GoodRecord(r, r.key, files[IndexPath].generation)
    ensures Coherent(Saved(files, r))
    ensures LoadIndex(Saved(files, r)) == Index(files[IndexPath].generation, files[IndexPath].sessions[r.key := r])
  {
    var after := Saved(files, r);
    forall k | k in after[IndexPath].sessions
      ensures RecordOk(after[IndexPath], after, k)
    {
      assert k != r.key ==> RecordOk(files[IndexPath], files, k);
    }
  }

  lemma EnsuredIsGood(files: Files, key: string, now: real)
    requires Coherent(files) && key != INDEX_KEY
    ensures GoodRecord(EnsuredRecord(files, key, now), key, files[IndexPath].generation)
  {
    assert key in files[IndexPath].sessions ==> RecordOk(files[IndexPath], files, key);
  }

  lemma ChangedCoherent(files: Files, key: string, now: real, change: Record -> Record)
    requires Coherent(files) && key != INDEX_KEY
    requires GoodRecord(change(EnsuredRecord(files, key, now)), key, files[IndexPath].generation)
    ensures Coherent(Changed(files, key, now, change))
    ensures LoadIndex(Changed(files, key, now, change)) ==
            Index(files[IndexPath].generation, files[IndexPath].sessions[key := change(EnsuredRecord(files, key, now))])
  {
    EnsuredIsGood(files, key, now);
    SavedCoherent(files, EnsuredRecord(files, key, now));
    SavedCoherent(Ensured(files, key, now), change(EnsuredRecord(files, key, now)));
  }

  // ensure_session is idempotent, whenever it is repeated.
  lemma EnsureIsIdempotent(files: Files, key: string, now: real, later: real)
    requires Coherent(files) && key != INDEX_KEY
    ensures Ensured(Ensured(files, key, now), key, later) == Ensured(files, key, now)
    ensures EnsuredRecord(Ensured(files, key, now), key, later) == EnsuredRecord(files, key, now)
  {
    EnsuredIsGood(files, key, now);
    var r, once := EnsuredRecord(files, key, now), Ensured(files, key, now);
    SavedCoherent(files, r);
    var index := LoadIndex(once);
    assert index.sessions[key := r] == index.sessions;
    assert once[IndexPath := index] == once;
    assert Ensured(once, key, later) == once;
  }

  // A restart clears every thread and keeps the keys and the task refs.
  lemma {:induction false} RestartCoherent(files: Files, now: real)
    requires Coherent(files)
    ensures Coherent(Restarted(files, now))
    ensures var before, after := files[IndexPath], Restarted(files, now)[IndexPath];
      && after.Index? && after.generation == before.generation + 1 && after.sessions.Keys == before.sessions.Keys
      && forall k :: k in after.sessions ==>
           after.sessions[k] == Record(before.sessions[k].key, None, "stale:restart", now, before.sessions[k].taskRefs,
                                       before.generation + 1)
  {
    var after := Restarted(files, now);
    forall k | k in after[IndexPath].sessions
      ensures RecordOk(after[IndexPath], after, k)
    {
      assert RecordOk(files[IndexPath], files, k);
      FileAt(files, after[IndexPath].sessions, SessionPath(k));
    }
  }

  // ---- Whole runs ----

  datatype Op =
    | Ensure(key: string, now: real)
    | MarkUsed(key: string, now: real)
    | Bind(key: string, thread: string, now: real)
    | Invalidate(key: string, reason: string, now: real)
    | AddRef(key: string, task: string, now: real)
    | Restart(now: real)

  function Do(files: Files, op: Op): Files {
    match op
    case Ensure(key, now) => Ensured(files, key, now)
    case MarkUsed(key, now) => Changed(files, key, now, Used(now))
    case Bind(key, thread, now) => Changed(files, key, now, Bound(thread, now))
    case Invalidate(key, reason, now) => Changed(files, key, now, Invalidated(reason, now))
    case AddRef(key, task, now) => Changed(files, key, now, WithRef(task, now))
    case Restart(now) => Restarted(files, now)
  }

  lemma StepCoherent(files: Files, op: Op)
    requires Coherent(files) && (op.Restart? || op.key != INDEX_KEY)
    ensures Coherent(Do(files, op))
  {
    if op.Restart? {
      RestartCoherent(files, op.now);
    } else {
      EnsuredIsGood(files, op.key, op.now);
      assert op.Invalidate? ==> ("stale:" + op.reason)[0] != "active"[0];
      match op
      case Ensure(key, now) => SavedCoherent(files, EnsuredRecord(files, key, now));
      case MarkUsed(key, now) => ChangedCoherent(files, key, now, Used(now));
      case Bind(key, thread, now) => ChangedCoherent(files, key, now, Bound(thread, now));
      case Invalidate(key, reason, now) => ChangedCoherent(files, key, now, Invalidated(reason, now));
      case AddRef(key, task, now) => ChangedCoherent(files, key, now, WithRef(task, now));
    }
  }

  // Besides the session it is about, an operation changes no record of the index.
  lemma {:induction false} StepIndex(files: Files, op: Op)
    requires Coherent(files) && !op.Restart? && op.key != INDEX_KEY
    ensures var before, after := LoadIndex(files).sessions, LoadIndex(Do(files, op)).sessions;
      var r := EnsuredRecord(files, op.key, op.now);
      after == before[op.key :=
        match op
        case Ensure(_, _) => r
        case MarkUsed(_, now) => r.(lastUsed := now)
        case Bind(_, thread, now) => r.(threadId := Some(thread), status := "active", lastUsed := now)
        case Invalidate(_, reason, now) => r.(threadId := None, status := "stale:" + reason, lastUsed := now)
        case AddRef(_, task, now) => r.(taskRefs := if task in r.taskRefs then r.taskRefs else r.taskRefs + [task], lastUsed := now)]
    ensures var before := LoadIndex(files).sessions;
      EnsuredRecord(files, op.key, op.now) ==
        if op.key in before then before[op.key] else Record(op.key, None, "new", op.now, [], LoadIndex(files).generation)
  {
    EnsuredIsGood(files, op.key, op.now);
    SavedCoherent(files, EnsuredRecord(files, op.key, op.now));
  }

  // An operation on a coherent registry leaves it coherent exactly when it is not on the key "sessions": the file of
  // that session is the index itself, and saving the record overwrites it, so that every session is lost.
  lemma {:induction false} CoherentUnlessIndexKey(files: Files, op: Op)
    requires Coherent(files)
    ensures Coherent(Do(files, op)) <==> op.Restart? || op.key != "sessions"
    ensures !Coherent(Do(files, op)) ==> LoadIndex(Do(files, op)).sessions == map[]
  {
    if op.Restart? || op.key != INDEX_KEY {
      StepCoherent(files, op);
    }
  }

  function After(files: Files, ops: seq<Op>): Files {
    Fold(Do, files, ops)
  }

  lemma {:induction false} RegistryCoherent(files: Files, ops: seq<Op>)
    requires Coherent(files) && forall i :: 0 <= i < |ops| ==> ops[i].Restart? || ops[i].key != INDEX_KEY
    ensures Coherent(After(files, ops))
    decreases |ops|
  {
    if ops != [] {
      StepCoherent(files, ops[0]);
      RegistryCoherent(Do(files, ops[0]), ops[1..]);
    }
  }
}
