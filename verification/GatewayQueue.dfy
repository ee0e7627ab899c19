// The message queue of the gateway (services/sheriff_gateway/service.py): one FIFO line per principal, the set of
// principals being served, and the pause flag.
module GatewayQueue {
  import opened Common

  type Principal = string
  type QueueId = nat   // stands for a uuid4, so never handed out twice

  // The fields of the gateway that the queue protocol reads and writes.
  datatype Core = Core(queue: map<Principal, seq<QueueId>>, processing: set<Principal>, paused: bool, reason: string)

  const EMPTY: Core := Core(map[], {}, false, "")

  // The test a message makes under the condition's lock before it may be processed.
  predicate Admissible(c: Core, p: Principal, id: QueueId) {
    At(c.queue, p) != [] && At(c.queue, p)[0] == id && p !in c.processing && !c.paused
  }

  function Joined(c: Core, p: Principal, id: QueueId): Core {
    c.(queue := c.queue[p := At(c.queue, p) + [id]])
  }

  function Claimed(c: Core, p: Principal): Core {
    c.(processing := c.processing + {p})
  }

  function Released(c: Core, p: Principal, id: QueueId): Core {
    var line := At(c.queue, p);
    c.(queue := if line != [] && line[0] == id then c.queue[p := line[1..]] else c.queue,
       processing := c.processing - {p})
  }

  function Controlled(c: Core, pause: bool, reason: string): Core {
    c.(paused := pause, reason := if pause then reason else "")
  }

  class SheriffGateway {
    var queue: map<Principal, seq<QueueId>>
    var processing: set<Principal>
    var paused: bool
    var pauseReason: string

    function View(): Core
      reads this
    {
      Core(queue, processing, paused, pauseReason)
    }

    constructor ()
      ensures View() == EMPTY
    {
      queue, processing, paused, pauseReason := map[], {}, false, "";
    }

    // The first statement of handle_user_message's critical section.
    method Join(p: Principal, id: QueueId)
      modifies this
      ensures View() == Joined(old(View()), p, id)
      ensures queue == old(queue)[p := (if p in old(queue) then old(queue)[p] else []) + [id]]
      ensures processing == old(processing) && paused == old(paused) && pauseReason == old(pauseReason)
    {
      if p !in queue {
        queue := queue[p := []];
      }
      queue := queue[p := queue[p] + [id]];
    }

    // One turn of the loop in the critical section: claim the principal, or report that the message must wait.
    method TryClaim(p: Principal, id: QueueId) returns (claimed: bool)
      modifies this
      ensures claimed == Admissible(old(View()), p, id)
      ensures View() == if claimed then Claimed(old(View()), p) else old(View())
      ensures claimed <==> p in old(queue) && old(queue)[p] != [] && old(queue)[p][0] == id && p !in old(processing) && !old(paused)
      ensures processing == old(processing) + (if claimed then {p} else {})
      ensures queue == old(queue) && paused == old(paused) && pauseReason == old(pauseReason)
    {
      var isHead := p in queue && queue[p] != [] && queue[p][0] == id;
      var busy := p in processing;
      claimed := false;
      if isHead && !busy && !paused {
        processing := processing + {p};
        claimed := true;
      }
    }

    // The finally block, which runs whether the processing returned or raised.
    method Release(p: Principal, id: QueueId)
      modifies this
      ensures View() == Released(old(View()), p, id)
      ensures queue == if p in old(queue) && old(queue)[p] != [] && old(queue)[p][0] == id
                       then old(queue)[p := old(queue)[p][1..]] else old(queue)
      ensures processing == old(processing) - {p} && paused == old(paused) && pauseReason == old(pauseReason)
    {
      if p in queue && queue[p] != [] && queue[p][0] == id {
        queue := queue[p := queue[p][1..]];
      }
      processing := processing - {p};
    }

    method QueueControl(pause: bool, reason: string) returns (nowPaused: bool, nowReason: string)
      modifies this
      ensures View() == Controlled(old(View()), pause, reason)
      ensures paused == pause && pauseReason == (if pause then reason else "")
      ensures queue == old(queue) && processing == old(processing)
      ensures nowPaused == paused && nowReason == pauseReason
    {
      paused := pause;
      pauseReason := if pause then reason else "";
      return paused, pauseReason;
    }

    method QueueStatus() returns (nowPaused: bool, reason: string, busy: nat, pending: nat)
      ensures nowPaused == paused && reason == pauseReason && busy == |processing|
      ensures pending == Total(queue)
    {
      pending := 0;
      var todo := queue;
      while todo.Keys != {}
        invariant pending + Total(todo) == Total(queue)
        decreases |todo.Keys|
      {
        var p :| p in todo;
        SumWithout(Lengths(todo), p);
        assert Lengths(todo) - {p} == Lengths(todo - {p});
        assert (todo - {p}).Keys == todo.Keys - {p};
        pending, todo := pending + |todo[p]|, todo - {p};
      }
      return paused, pauseReason, |processing|, pending;
    }
  }
}
