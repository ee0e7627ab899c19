// The gateway's queue protocol as a step system. Every task that runs handle_user_message goes through the phases
// below; what it does to the queue fields is what the methods of GatewayQueue.SheriffGateway are proved to do.
module GatewayRuns {
  import opened Common
  import opened GatewayQueue

  datatype Phase =
    | Arrived     // has an id and wants the lock for the first time
    | Testing     // holds the lock, about to test whether it may start
    | Refused     // holds the lock, failed the test, about to wait on the condition
    | Parked      // waits on the condition, not notified
    | Notified    // was notified, wants the lock back
    | Running     // is being processed
    | Finishing   // processing returned or raised; wants the lock for the finally block

  datatype Task = Task(owner: Principal, phase: Phase)

  // `holder` is the task inside the lock between two steps, `seen` all ids ever issued; `entered` and `left` record,
  // per principal, the ids in the order in which they were appended to the line and removed from it.
  datatype State = State(
    core: Core, tasks: map<QueueId, Task>, holder: Option<QueueId>, seen: set<QueueId>,
    entered: map<Principal, seq<QueueId>>, left: map<Principal, seq<QueueId>>)

  const INIT: State := State(EMPTY, map[], None, {}, map[], map[])

  datatype Action =
    | Arrive(id: QueueId, p: Principal)
    | Enter(id: QueueId)
    | Test(id: QueueId)
    | Park(id: QueueId)
    | Wake(id: QueueId)
    | Return(id: QueueId, raised: bool)
    | Finish(id: QueueId)
    | Control(pause: bool, reason: string)

  predicate InPhase(s: State, id: QueueId, ph: Phase) {
    id in s.tasks && s.tasks[id].phase == ph
  }

  predicate Enabled(s: State, a: Action) {
    match a
    case Arrive(id, _) => id !in s.seen
    case Enter(id) => InPhase(s, id, Arrived) && s.holder.None?
    case Test(id) => InPhase(s, id, Testing)
    case Park(id) => InPhase(s, id, Refused)
    case Wake(id) => InPhase(s, id, Notified) && s.holder.None?
    case Return(id, _) => InPhase(s, id, Running)
    case Finish(id) => InPhase(s, id, Finishing) && s.holder.None?
    case Control(_, _) => s.holder.None?
  }

  function Moved(s: State, id: QueueId, ph: Phase): map<QueueId, Task>
    requires id in s.tasks
  {
    s.tasks[id := s.tasks[id].(phase := ph)]
  }

  // notify_all: every task waiting on the condition will test again.
  function NotifyAll(tasks: map<QueueId, Task>): map<QueueId, Task> {
    map id | id in tasks :: if tasks[id].phase == Parked then tasks[id].(phase := Notified) else tasks[id]
  }

  function Next(s: State, a: Action): State
    requires Enabled(s, a)
  {
    match a
    case Arrive(id, p) =>
      s.(tasks := s.tasks[id := Task(p, Arrived)], seen := s.seen + {id})
    case Enter(id) =>
      var p := s.tasks[id].owner;
      s.(core := Joined(s.core, p, id), tasks := Moved(s, id, Testing), holder := Some(id),
         entered := s.entered[p := At(s.entered, p) + [id]])
    case Test(id) =>
      var p := s.tasks[id].owner;
      if Admissible(s.core, p, id) then
        s.(core := Claimed(s.core, p), tasks := Moved(s, id, Running), holder := None)
      else
        s.(tasks := Moved(s, id, Refused))
    case Park(id) =>
      s.(tasks := Moved(s, id, Parked), holder := None)
    case Wake(id) =>
      s.(tasks := Moved(s, id, Testing), holder := Some(id))
    case Return(id, _) =>
      s.(tasks := Moved(s, id, Finishing))
    case Finish(id) =>
      var p := s.tasks[id].owner;
      var popped := At(s.core.queue, p) != [] && At(s.core.queue, p)[0] == id;
      s.(core := Released(s.core, p, id), tasks := NotifyAll(s.tasks - {id}),
         left := if popped then s.left[p := At(s.left, p) + [id]] else s.left)
    case Control(pause, reason) =>
      s.(core := Controlled(s.core, pause, reason), tasks := NotifyAll(s.tasks))
  }

  ghost predicate IsRun(s: State, run: seq<Action>)
    decreases |run|
  {
    run == [] || (Enabled(s, run[0]) && IsRun(Next(s, run[0]), run[1..]))
  }

  ghost function After(s: State, run: seq<Action>): State
    requires IsRun(s, run)
    decreases |run|
  {
    if run == [] then s else After(Next(s, run[0]), run[1..])
  }

  // ---- What every step keeps ----

  predicate Busy(ph: Phase) { ph == Running || ph == Finishing }

  predicate Waiting(ph: Phase) { ph == Parked || ph == Refused }

  // A principal's line holds each of its entered tasks once, and the principal is processing exactly when the task at
  // the head of its line is being served.
  ghost predicate LineOk(s: State, p: Principal) {
    var line := At(s.core.queue, p);
    && NoDup(line)
    && (forall id :: id in line ==> id in s.tasks && s.tasks[id].owner == p && s.tasks[id].phase != Arrived)
    && (p in s.core.processing <==> line != [] && line[0] in s.tasks && Busy(s.tasks[line[0]].phase))
  }

  // What entered a line is what left it followed by what is still in it, and no id enters twice.
  ghost predicate HistoryOk(s: State, p: Principal) {
    var entered := At(s.entered, p);
    && entered == At(s.left, p) + At(s.core.queue, p)
    && NoDup(entered)
    && (forall id :: id in entered ==> id in s.seen && !InPhase(s, id, Arrived))
  }

  // A task is in its owner's line once it has entered; a task being served is at the head; a task inside the lock
  // holds it; and, no wake-up being lost, a task that waits without having been notified could not start.
  ghost predicate TaskOk(s: State, id: QueueId)
    requires id in s.tasks
  {
    var Task(p, ph) := s.tasks[id];
    && id in s.seen
    && (ph != Arrived ==> id in At(s.core.queue, p))
    && (Busy(ph) ==> p in s.core.processing && At(s.core.queue, p) != [] && At(s.core.queue, p)[0] == id)
    && (ph == Testing || ph == Refused ==> s.holder == Some(id))
    && (Waiting(ph) ==> !Admissible(s.core, p, id))
  }

  ghost predicate Inv(s: State) {
    && (forall p :: LineOk(s, p))
    && (forall p :: HistoryOk(s, p))
    && (forall id :: id in s.tasks ==> TaskOk(s, id))
    && (s.holder.Some? ==> InPhase(s, s.holder.value, Testing) || InPhase(s, s.holder.value, Refused))
  }

  // A task that finishes is at the head of its line, so the finally block does remove its id.
  lemma FinishPops(s: State, id: QueueId)
    requires Inv(s) && InPhase(s, id, Finishing)
    ensures var p := s.tasks[id].owner;
            At(s.core.queue, p) != [] && At(s.core.queue, p)[0] == id && id !in At(s.core.queue, p)[1..]
  {
    assert TaskOk(s, id) && LineOk(s, s.tasks[id].owner);
  }

  lemma LineStep(s: State, a: Action, p: Principal)
    requires Inv(s) && Enabled(s, a)
    ensures LineOk(Next(s, a), p)
  {
    assert LineOk(s, p);
    match a
    case Arrive(id, _) =>
    case Enter(id) => EnterLine(s, id, p);
    case Finish(id) =>
      if p == s.tasks[id].owner { FinishOwnLine(s, id); } else { FinishOtherLine(s, id, p); }
    case Test(id) => assert TaskOk(s, id);
    case Return(id, _) => assert TaskOk(s, id);
    case _ =>
  }

  lemma EnterLine(s: State, id: QueueId, p: Principal)
    requires Inv(s) && Enabled(s, Enter(id))
    ensures LineOk(Next(s, Enter(id)), p)
  {
    assert LineOk(s, p);
    var t := Next(s, Enter(id));
    if p == s.tasks[id].owner {
      assert At(t.core.queue, p) == At(s.core.queue, p) + [id];
    }
  }

  // Behind a task that finishes nobody is being served.
  lemma NextIsWaiting(s: State, id: QueueId)
    requires Inv(s) && Enabled(s, Finish(id))
    ensures var p := s.tasks[id].owner; var rest := At(s.core.queue, p)[1..];
      rest != [] ==> rest[0] in s.tasks && rest[0] != id && !Busy(s.tasks[rest[0]].phase)
  {
    var p := s.tasks[id].owner;
    assert LineOk(s, p);
    FinishPops(s, id);
    var line := At(s.core.queue, p);
    if |line| > 1 {
      assert line[1] in line && line[1] in line[1..];
      assert TaskOk(s, line[1]);
    }
  }

  // What finishing leaves of the line and of the other tasks.
  lemma FinishEffect(s: State, id: QueueId)
    requires Inv(s) && Enabled(s, Finish(id))
    ensures var p, t := s.tasks[id].owner, Next(s, Finish(id));
      && At(s.core.queue, p) == [id] + At(t.core.queue, p) && id !in At(t.core.queue, p)
      && At(t.core.queue, p) == At(s.core.queue, p)[1..] && p !in t.core.processing
      && (forall x :: x in s.tasks && x != id ==>
            (x in t.tasks && t.tasks[x].owner == s.tasks[x].owner &&
             (t.tasks[x].phase == Arrived <==> s.tasks[x].phase == Arrived) && Busy(t.tasks[x].phase) == Busy(s.tasks[x].phase)))
  {
    FinishPops(s, id);
  }

  lemma FinishOwnLine(s: State, id: QueueId)
    requires Inv(s) && Enabled(s, Finish(id))
    ensures LineOk(Next(s, Finish(id)), s.tasks[id].owner)
  {
    var p := s.tasks[id].owner;
    assert LineOk(s, p);
    FinishEffect(s, id);
    NextIsWaiting(s, id);
    var line, rest := At(s.core.queue, p), At(Next(s, Finish(id)).core.queue, p);
    assert forall x :: x in rest ==> x in line;
  }

  lemma FinishOtherLine(s: State, id: QueueId, p: Principal)
    requires Inv(s) && Enabled(s, Finish(id)) && p != s.tasks[id].owner
    ensures LineOk(Next(s, Finish(id)), p)
  {
    assert LineOk(s, p);
    assert id !in At(s.core.queue, p) && At(Next(s, Finish(id)).core.queue, p) == At(s.core.queue, p);
  }

  lemma EnterHistory(s: State, id: QueueId, p: Principal)
    requires Inv(s) && Enabled(s, Enter(id))
    ensures HistoryOk(Next(s, Enter(id)), p)
  {
    assert HistoryOk(s, p) && TaskOk(s, id);
    var t := Next(s, Enter(id));
    if p == s.tasks[id].owner {
      assert At(t.entered, p) == At(s.entered, p) + [id];
    }
  }

  lemma FinishHistory(s: State, id: QueueId, p: Principal)
    requires Inv(s) && Enabled(s, Finish(id))
    ensures HistoryOk(Next(s, Finish(id)), p)
  {
    assert HistoryOk(s, p);
    var t := Next(s, Finish(id));
    FinishPops(s, id);
    if p == s.tasks[id].owner {
      assert At(s.left, p) + At(s.core.queue, p) == At(t.left, p) + At(t.core.queue, p);
    }
  }

  lemma HistoryStep(s: State, a: Action, p: Principal)
    requires Inv(s) && Enabled(s, a)
    ensures HistoryOk(Next(s, a), p)
  {
    assert HistoryOk(s, p);
    match a
    case Enter(id) => EnterHistory(s, id, p);
    case Finish(id) => FinishHistory(s, id, p);
    case _ =>
  }

  lemma TaskStep(s: State, a: Action, id: QueueId)
    requires Inv(s) && Enabled(s, a) && id in Next(s, a).tasks
    ensures TaskOk(Next(s, a), id)
  {
    assert id in s.tasks ==> TaskOk(s, id);
    match a
    case Finish(x) => FinishTask(s, x, id);
    case Enter(x) => EnterTask(s, x, id);
    case _ =>
  }

  lemma EnterTask(s: State, x: QueueId, id: QueueId)
    requires Inv(s) && Enabled(s, Enter(x)) && id in s.tasks
    ensures TaskOk(Next(s, Enter(x)), id)
  {
    assert TaskOk(s, id);
    var t, p := Next(s, Enter(x)), s.tasks[id].owner;
    assert At(t.core.queue, p) == At(s.core.queue, p) + if p == s.tasks[x].owner then [x] else [];
  }

  lemma FinishTask(s: State, x: QueueId, id: QueueId)
    requires Inv(s) && Enabled(s, Finish(x)) && id in s.tasks && id != x
    ensures TaskOk(Next(s, Finish(x)), id)
  {
    assert TaskOk(s, id);
    FinishPops(s, x);
    var t, p := Next(s, Finish(x)), s.tasks[id].owner;
    assert id in t.tasks && !Waiting(t.tasks[id].phase);
    if p == s.tasks[x].owner {
      assert At(s.core.queue, p) == [x] + At(t.core.queue, p);
      assert !Busy(s.tasks[id].phase);
    } else {
      assert At(t.core.queue, p) == At(s.core.queue, p);
    }
  }

  lemma InvStep(s: State, a: Action)
    requires Inv(s) && Enabled(s, a)
    ensures Inv(Next(s, a))
  {
    forall p ensures LineOk(Next(s, a), p) { LineStep(s, a, p); }
    forall p ensures HistoryOk(Next(s, a), p) { HistoryStep(s, a, p); }
    forall id | id in Next(s, a).tasks ensures TaskOk(Next(s, a), id) { TaskStep(s, a, id); }
  }

  lemma TotalsStep(s: State, a: Action)
    requires Inv(s) && Enabled(s, a)
    requires Total(s.entered) == Total(s.left) + Total(s.core.queue)
    ensures var t := Next(s, a); Total(t.entered) == Total(t.left) + Total(t.core.queue)
  {
    match a
    case Enter(id) =>
      var p := s.tasks[id].owner;
      TotalUpdate(s.entered, p, At(s.entered, p) + [id]);
      TotalUpdate(s.core.queue, p, At(s.core.queue, p) + [id]);
    case Finish(id) =>
      FinishPops(s, id);
      var p := s.tasks[id].owner;
      TotalUpdate(s.left, p, At(s.left, p) + [id]);
      TotalUpdate(s.core.queue, p, At(s.core.queue, p)[1..]);
    case _ =>
  }

  lemma {:induction false} InvRun(s: State, run: seq<Action>)
    requires Inv(s) && IsRun(s, run)
    ensures Inv(After(s, run))
    decreases |run|
  {
    if run != [] {
      InvStep(s, run[0]);
      InvRun(Next(s, run[0]), run[1..]);
    }
  }

  // ---- Safety over whole runs ----

  lemma InitInv()
    ensures Inv(INIT)
  {
  }

  // In every reachable state `processing` is exactly the set of owners of tasks being served, each of them has one
  // such task, and that task is the head of its line.
  lemma OneServedPerPrincipal(run: seq<Action>)
    requires IsRun(INIT, run)
    ensures var s := After(INIT, run);
      && (forall p :: p in s.core.processing <==> exists id :: id in s.tasks && s.tasks[id].owner == p && Busy(s.tasks[id].phase))
      && (forall x, y :: x in s.tasks && y in s.tasks && Busy(s.tasks[x].phase) && Busy(s.tasks[y].phase) ==>
            s.tasks[x].owner == s.tasks[y].owner ==> x == y)
      && (forall id :: id in s.tasks && Busy(s.tasks[id].phase) ==>
            At(s.core.queue, s.tasks[id].owner) != [] && At(s.core.queue, s.tasks[id].owner)[0] == id)
  {
    InvRun(INIT, run);
    var s := After(INIT, run);
    forall p
      ensures p in s.core.processing <==> exists id :: id in s.tasks && s.tasks[id].owner == p && Busy(s.tasks[id].phase)
    {
      assert LineOk(s, p);
      if p in s.core.processing {
        var id := At(s.core.queue, p)[0];
        assert id in At(s.core.queue, p) && id in s.tasks;
      }
      forall id | id in s.tasks && s.tasks[id].owner == p && Busy(s.tasks[id].phase)
        ensures p in s.core.processing
      {
        assert TaskOk(s, id);
      }
    }
    forall id | id in s.tasks ensures TaskOk(s, id) {}
  }

  // Ids leave each line in the order in which they joined it, each at most once, and every id that joined has either
  // left or is still in line.
  lemma FirstInFirstOut(run: seq<Action>, p: Principal)
    requires IsRun(INIT, run)
    ensures var s := After(INIT, run);
      && At(s.left, p) <= At(s.entered, p) && NoDup(At(s.entered, p))
      && At(s.core.queue, p) == At(s.entered, p)[|At(s.left, p)|..]
  {
    InvRun(INIT, run);
    assert HistoryOk(After(INIT, run), p);
  }

  // Summed over the principals: messages entered are messages removed plus the `pending` of queue_status.
  lemma {:induction false} EnteredIsLeftPlusPending(s: State, run: seq<Action>)
    requires Inv(s) && IsRun(s, run) && Total(s.entered) == Total(s.left) + Total(s.core.queue)
    ensures var t := After(s, run); Total(t.entered) == Total(t.left) + Total(t.core.queue)
    decreases |run|
  {
    if run != [] {
      TotalsStep(s, run[0]);
      InvStep(s, run[0]);
      EnteredIsLeftPlusPending(Next(s, run[0]), run[1..]);
    }
  }

  lemma {:induction false} EnqueuedIsRemovedPlusPending(run: seq<Action>)
    requires IsRun(INIT, run)
    ensures var s := After(INIT, run); Total(s.entered) == Total(s.left) + Total(s.core.queue)
  {
    InitInv();
    EnteredIsLeftPlusPending(INIT, run);
  }

  lemma NoLostWakeUp(run: seq<Action>, id: QueueId)
    requires IsRun(INIT, run) && InPhase(After(INIT, run), id, Parked)
    ensures var s := After(INIT, run); !Admissible(s.core, s.tasks[id].owner, id)
  {
    InvRun(INIT, run);
    assert TaskOk(After(INIT, run), id);
  }

  // A message's start depends on its own principal and the pause flag alone: it starts exactly when it heads its line, its
  // principal is not being served and the queue runs, whoever else is being served.
  lemma {:induction false} StartsIndependently(s: State, id: QueueId)
    requires InPhase(s, id, Testing)
    ensures var p := s.tasks[id].owner; var t := Next(s, Test(id));
      && (InPhase(t, id, Running) <==>
            p in s.core.queue && s.core.queue[p] != [] && s.core.queue[p][0] == id && p !in s.core.processing && !s.core.paused)
      && t.core == (if InPhase(t, id, Running) then s.core.(processing := s.core.processing + {p}) else s.core)
      && (InPhase(t, id, Running) || InPhase(t, id, Refused))
  {
  }

  // A message that arrives goes to the end of the line of the principal it names, and of no other.
  lemma {:induction false} JoinsItsOwnLine(s: State, id: QueueId, p: Principal, q: Principal)
    requires id !in s.seen && s.holder.None?
    ensures Enabled(s, Arrive(id, p)) && Enabled(Next(s, Arrive(id, p)), Enter(id))
    ensures var t := Next(Next(s, Arrive(id, p)), Enter(id));
      At(t.core.queue, q) == At(s.core.queue, q) + (if q == p then [id] else []) && t.core.processing == s.core.processing
  {
  }

  // Two principals are served at once, in any state in which both head their lines.
  lemma {:induction false} ServedSideBySide(s: State, x: QueueId, y: QueueId)
    requires Inv(s) && InPhase(s, x, Testing) && InPhase(s, y, Notified) && s.tasks[x].owner != s.tasks[y].owner && !s.core.paused
    requires forall id :: id in {x, y} ==>
      var line := At(s.core.queue, s.tasks[id].owner); line != [] && line[0] == id && s.tasks[id].owner !in s.core.processing
    ensures IsRun(s, [Test(x), Wake(y), Test(y)])
    ensures var t := After(s, [Test(x), Wake(y), Test(y)]); InPhase(t, x, Running) && InPhase(t, y, Running)
  {
    assert x in {x, y} && y in {x, y};
    var s1 := Next(s, Test(x));
    var s2 := Next(s1, Wake(y));
    var s3 := Next(s2, Test(y));
    assert InPhase(s3, x, Running) && InPhase(s3, y, Running);
    assert [Test(x), Wake(y), Test(y)][1..] == [Wake(y), Test(y)] && [Wake(y), Test(y)][1..] == [Test(y)] && [Test(y)][1..] == [];
    assert After(s2, [Test(y)]) == s3;
    assert After(s1, [Wake(y), Test(y)]) == s3;
  }

  // ---- The protocol refines one first-in-first-out server per principal ----

  datatype Server = Server(line: seq<QueueId>, serving: bool)

  predicate ServerStep(a: Server, b: Server) {
    || a == b
    || (b.serving == a.serving && |b.line| == |a.line| + 1 && a.line < b.line && b.line[|a.line|] !in a.line)  // join
    || (!a.serving && a.line != [] && b == Server(a.line, true))                                            // serve
    || (a.serving && a.line != [] && b == Server(a.line[1..], false))                                       // done
  }

  function ServerOf(s: State, p: Principal): Server {
    Server(At(s.core.queue, p), p in s.core.processing)
  }

  lemma RefinesServers(run: seq<Action>, a: Action, p: Principal)
    requires IsRun(INIT, run) && Enabled(After(INIT, run), a)
    ensures ServerOf(INIT, p) == Server([], false)
    ensures ServerStep(ServerOf(After(INIT, run), p), ServerOf(Next(After(INIT, run), a), p))
  {
    InvRun(INIT, run);
    var s := After(INIT, run);
    assert LineOk(s, p);
    match a
    case Enter(id) => assert TaskOk(s, id);
    case Finish(id) => assert TaskOk(s, id); FinishPops(s, id);
    case _ =>
  }

  // ---- Draining ----

  // Steps that neither add work nor change the pause flag.
  predicate Internal(a: Action) { !a.Arrive? && !a.Control? }

  ghost predicate Stuck(s: State) {
    forall a :: Internal(a) ==> !Enabled(s, a)
  }

  // When no internal step is left, nothing is being processed, and unless the queue is paused nothing waits either.
  lemma StuckIsDrained(s: State)
    requires Inv(s) && Stuck(s)
    ensures s.core.processing == {}
    ensures forall id :: id in s.tasks ==> s.tasks[id].phase == Parked
    ensures !s.core.paused ==> s.tasks.Keys == {} && forall p :: At(s.core.queue, p) == [] && At(s.left, p) == At(s.entered, p)
  {
    if s.holder.Some? {
      var testing, refused := Enabled(s, Test(s.holder.value)), Enabled(s, Park(s.holder.value));
      assert false;
    }
    forall id | id in s.tasks
      ensures s.tasks[id].phase == Parked && id in At(s.core.queue, s.tasks[id].owner)
    {
      assert TaskOk(s, id) && id in s.seen;
      assert !Enabled(s, Enter(id)) && !Enabled(s, Wake(id)) && !Enabled(s, Return(id, false)) && !Enabled(s, Finish(id));
    }
    forall p
      ensures p !in s.core.processing
      ensures !s.core.paused ==> At(s.core.queue, p) == [] && At(s.left, p) == At(s.entered, p)
    {
      assert LineOk(s, p) && HistoryOk(s, p);
      var line := At(s.core.queue, p);
      if line != [] {
        assert line[0] in line;
        assert TaskOk(s, line[0]);
      }
    }
  }

  function Weight(ph: Phase): nat {
    match ph
    case Arrived => 7 case Notified => 6 case Testing => 5 case Refused => 4 case Parked => 3 case Running => 2
    case Finishing => 1
  }

  ghost function Weights(tasks: map<QueueId, Task>): map<QueueId, nat> {
    map id | id in tasks :: Weight(tasks[id].phase)
  }

  lemma {:induction false} WeightsBound(m: map<QueueId, nat>)
    requires forall id :: id in m ==> m[id] <= 7
    ensures Sum(m) <= 7 * |m.Keys|
    decreases |m.Keys|
  {
    if m.Keys != {} {
      var id :| id in m;
      SumWithout(m, id);
      assert (m - {id}).Keys == m.Keys - {id};
      WeightsBound(m - {id});
    }
  }

  // 8 + 16 + ... + 8n: removing one of n tasks outweighs waking all the others.
  function Budget(n: nat): nat {
    if n == 0 then 0 else Budget(n - 1) + 8 * n
  }

  ghost function WorkLeft(s: State): nat {
    Budget(|s.tasks.Keys|) + Sum(Weights(s.tasks))
  }

  lemma MovingLightens(s: State, id: QueueId, ph: Phase)
    requires id in s.tasks && Weight(ph) < Weight(s.tasks[id].phase)
    ensures Moved(s, id, ph).Keys == s.tasks.Keys && Sum(Weights(Moved(s, id, ph))) < Sum(Weights(s.tasks))
  {
    SumUpdate(Weights(s.tasks), id, Weight(ph));
    assert Weights(Moved(s, id, ph)) == Weights(s.tasks)[id := Weight(ph)];
  }

  lemma RemovingLightens(tasks: map<QueueId, Task>, id: QueueId)
    requires id in tasks
    ensures var rest := NotifyAll(tasks - {id}); Budget(|rest.Keys|) + Sum(Weights(rest)) < Budget(|tasks.Keys|)
  {
    var rest := NotifyAll(tasks - {id});
    assert rest.Keys == tasks.Keys - {id} && Weights(rest).Keys == rest.Keys;
    WeightsBound(Weights(rest));
  }

  lemma InternalStepWorks(s: State, a: Action)
    requires Internal(a) && Enabled(s, a)
    ensures WorkLeft(Next(s, a)) < WorkLeft(s)
  {
    match a
    case Finish(id) => RemovingLightens(s.tasks, id);
    case Enter(id) => MovingLightens(s, id, Testing);
    case Test(id) => MovingLightens(s, id, Running); MovingLightens(s, id, Refused);
    case Park(id) => MovingLightens(s, id, Parked);
    case Wake(id) => MovingLightens(s, id, Testing);
    case Return(id, _) => MovingLightens(s, id, Finishing);
  }

  // A run of internal steps is never longer than the work left at its start, whatever order the tasks run in and
  // whether or not processing raises.
  lemma {:induction false} DrainBound(s: State, run: seq<Action>)
    requires Inv(s) && IsRun(s, run) && forall i :: 0 <= i < |run| ==> Internal(run[i])
    ensures |run| + WorkLeft(After(s, run)) <= WorkLeft(s)
    decreases |run|
  {
    if run != [] {
      InternalStepWorks(s, run[0]);
      InvStep(s, run[0]);
      DrainBound(Next(s, run[0]), run[1..]);
    }
  }

  lemma {:induction false} InternalKeepsPause(s: State, run: seq<Action>)
    requires IsRun(s, run) && forall i :: 0 <= i < |run| ==> Internal(run[i])
    ensures After(s, run).core.paused == s.core.paused
    decreases |run|
  {
    if run != [] {
      InternalKeepsPause(Next(s, run[0]), run[1..]);
    }
  }

  // Guaranteed drain: from a reachable unpaused state, internal steps alone always come to an end, within the bound,
  // and they can end only with every line empty and every message that entered processed.
  lemma {:induction false} GuaranteedDrain(prefix: seq<Action>, run: seq<Action>)
    requires IsRun(INIT, prefix) && IsRun(After(INIT, prefix), run)
    requires forall i :: 0 <= i < |run| ==> Internal(run[i])
    ensures |run| <= WorkLeft(After(INIT, prefix))
    ensures var t := After(After(INIT, prefix), run);
      Stuck(t) ==> t.core.processing == {} && (!After(INIT, prefix).core.paused ==>
        t.tasks.Keys == {} && forall p :: At(t.core.queue, p) == [] && At(t.left, p) == At(t.entered, p))
  {
    InvRun(INIT, prefix);
    var s := After(INIT, prefix);
    InvRun(s, run);
    DrainBound(s, run);
    InternalKeepsPause(s, run);
    if Stuck(After(s, run)) {
      StuckIsDrained(After(s, run));
    }
  }

  // While the queue is paused no message starts: as long as nobody resumes it, the set being processed only shrinks.
  lemma {:induction false} PausedOnlyShrinks(s: State, run: seq<Action>)
    requires s.core.paused && IsRun(s, run)
    requires forall i :: 0 <= i < |run| ==> run[i].Control? ==> run[i].pause
    ensures After(s, run).core.paused && After(s, run).core.processing <= s.core.processing
    decreases |run|
  {
    if run != [] {
      PausedOnlyShrinks(Next(s, run[0]), run[1..]);
    }
  }
}
