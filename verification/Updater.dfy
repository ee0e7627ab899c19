// The update command (services/sheriff_ctl/system.py): pause the gateway's queue, poll until nothing is being
// processed or 120 polls have passed, run the updater, and resume in the finally block.
module Updater {
  import opened Common
  import opened GatewayQueue
  import opened GatewayRuns

  const MAX_POLLS: nat := 120

  datatype Phase = Idle | Polling(polls: nat) | Updating(drained: bool)

  // One turn of the polling loop: leave by `break` on a reading of zero, or fall through after the last poll.
  function AfterPoll(polls: nat, busy: nat): Phase {
    if busy == 0 then Updating(true)
    else if polls + 1 == MAX_POLLS then Updating(false)
    else Polling(polls + 1)
  }

  // The loop run over the readings it will get.
  method DrainLoop(readings: seq<nat>) returns (drained: bool, polls: nat)
    requires |readings| == 120
    ensures polls <= 120 && (drained <==> 0 in readings)
    ensures forall i :: 0 <= i < polls - 1 ==> AfterPoll(i, readings[i]) == Polling(i + 1)
    ensures polls > 0 && AfterPoll(polls - 1, readings[polls - 1]) == Updating(drained)
  {
    drained, polls := false, 0;
    while polls < MAX_POLLS
      invariant polls <= MAX_POLLS && 0 !in readings[..polls]
    {
      polls := polls + 1;
      if readings[polls - 1] == 0 {
        return true, polls;
      }
    }
  }

  datatype World = World(gateway: State, phase: Phase)

  // `Resume` is the finally block, so it may also follow a poll that raised.
  datatype Step = Gateway(a: Action) | Pause | Poll | Resume

  predicate Allowed(w: World, st: Step) {
    match st
    case Gateway(a) => !a.Control? && Enabled(w.gateway, a)
    case Pause => w.phase.Idle? && w.gateway.holder.None?
    case Poll => w.phase.Polling?
    case Resume => !w.phase.Idle? && w.gateway.holder.None?
  }

  function Then(w: World, st: Step): World
    requires Allowed(w, st)
  {
    match st
    case Gateway(a) => w.(gateway := Next(w.gateway, a))
    case Pause => World(Next(w.gateway, Control(true, "update")), Polling(0))
    case Poll => w.(phase := AfterPoll(w.phase.polls, |w.gateway.core.processing|))
    case Resume => World(Next(w.gateway, Control(false, "")), Idle)
  }

  ghost predicate IsHistory(w: World, steps: seq<Step>)
    decreases |steps|
  {
    steps == [] || (Allowed(w, steps[0]) && IsHistory(Then(w, steps[0]), steps[1..]))
  }

  ghost function AfterAll(w: World, steps: seq<Step>): World
    requires IsHistory(w, steps)
    decreases |steps|
  {
    if steps == [] then w else AfterAll(Then(w, steps[0]), steps[1..])
  }

  const START: World := World(INIT, Idle)

  ghost predicate WorldInv(w: World) {
    && Inv(w.gateway)
    && (w.gateway.core.paused <==> !w.phase.Idle?)
    && w.gateway.core.reason == (if w.phase.Idle? then "" else "update")
    && (w.phase.Polling? ==> w.phase.polls < MAX_POLLS)
    && (w.phase == Updating(true) ==> w.gateway.core.processing == {})
  }

  lemma {:induction false} WorldInvHolds(w: World, steps: seq<Step>)
    requires WorldInv(w) && IsHistory(w, steps)
    ensures WorldInv(AfterAll(w, steps))
    decreases |steps|
  {
    if steps != [] {
      match steps[0] {
        case Gateway(a) => InvStep(w.gateway, a);
        case Pause => InvStep(w.gateway, Control(true, "update"));
        case Poll =>
        case Resume => InvStep(w.gateway, Control(false, ""));
      }
      WorldInvHolds(Then(w, steps[0]), steps[1..]);
    }
  }

  // Update quiescence: in every state between a `break` out of the polling loop and the resume, however the gateway's
  // other tasks have run meanwhile, no message is being processed and none can start.
  lemma QuiescentWhileUpdating(steps: seq<Step>, id: QueueId)
    requires IsHistory(START, steps) && AfterAll(START, steps).phase == Updating(true)
    ensures var s := AfterAll(START, steps).gateway;
      && s.core.processing == {}
      && (id in s.tasks ==> !Busy(s.tasks[id].phase) && !Admissible(s.core, s.tasks[id].owner, id))
  {
    InitInv();
    WorldInvHolds(START, steps);
    var s := AfterAll(START, steps).gateway;
    if id in s.tasks {
      assert TaskOk(s, id);
    }
  }

  // The update starts beside work in process exactly when the last of the polls still reads some: at the poll that
  // starts it, it has left by the `break` if and only if nothing is being processed.
  lemma {:induction false} OverlapsIffPollsRanOut(steps: seq<Step>)
    requires IsHistory(START, steps) && AfterAll(START, steps).phase.Polling?
    ensures var w := AfterAll(START, steps); var busy := w.gateway.core.processing != {};
      && (Then(w, Poll).phase == Updating(true) <==> !busy)
      && (Then(w, Poll).phase == Updating(false) <==> busy && w.phase.polls == 119)
  {
    InitInv();
    WorldInvHolds(START, steps);
  }

  lemma {:induction false} PollsRunOut(w: World, n: nat)
    requires 0 < n <= MAX_POLLS && w.phase == Polling(MAX_POLLS - n) && w.gateway.core.processing != {}
    ensures IsHistory(w, seq(n, _ => Poll)) && AfterAll(w, seq(n, _ => Poll)) == w.(phase := Updating(false))
    decreases n
  {
    var steps := seq(n, _ => Poll);
    var w' := Then(w, Poll);
    if n > 1 {
      PollsRunOut(w', n - 1);
      assert steps[1..] == seq(n - 1, _ => Poll);
    } else {
      assert steps[1..] == [];
    }
  }

  lemma {:induction false} HistoriesJoin(w: World, a: seq<Step>, b: seq<Step>)
    requires IsHistory(w, a) && IsHistory(AfterAll(w, a), b)
    ensures IsHistory(w, a + b) && AfterAll(w, a + b) == AfterAll(AfterAll(w, a), b)
    decreases |a|
  {
    if a == [] {
      assert a + b == b;
    } else {
      HistoriesJoin(Then(w, a[0]), a[1..], b);
      assert (a + b)[1..] == a[1..] + b;
    }
  }

  lemma MessageInProcess() returns (steps: seq<Step>)
    ensures IsHistory(START, steps)
    ensures var w := AfterAll(START, steps); w.phase.Idle? && w.gateway.holder.None? && w.gateway.core.processing != {}
  {
    var arrive, enter, test := Gateway(Arrive(0, "cli:u")), Gateway(Enter(0)), Gateway(Test(0));
    steps := [arrive, enter, test];
    var w1 := Then(START, arrive);
    var w2 := Then(w1, enter);
    assert "cli:u" in Then(w2, test).gateway.core.processing;
    assert steps[1..] == [enter, test] && [enter, test][1..] == [test] && [test][1..] == [];
    assert AfterAll(w2, [test]) == Then(w2, test);
    assert AfterAll(w1, [enter, test]) == Then(w2, test);
  }

  // The `break` matters: after 120 non-zero readings the update runs anyway, here beside a message in process.
  lemma UpdateMayOverlap()
    ensures exists steps ::
      IsHistory(START, steps) && AfterAll(START, steps).phase == Updating(false) &&
      AfterAll(START, steps).gateway.core.processing != {}
  {
    var setup := MessageInProcess();
    var w := AfterAll(START, setup);
    var polls := seq(MAX_POLLS, _ => Poll);
    PollsRunOut(Then(w, Pause), MAX_POLLS);
    assert ([Pause] + polls)[1..] == polls;
    HistoriesJoin(START, setup, [Pause] + polls);
  }
}
