// One established connection: callers that take turns under the client's lock, the serial server at the other end, and
// the two byte pipes between them, with every step of either end interleaved in any order.
module RpcRuns {
  import opened Common
  import opened Protocol
  import opened Ndjson
  import opened Rpc

  // `Free`: nobody holds the lock. `Awaiting`: its holder has written its request and has read `got` so far.
  datatype Client = Free | Awaiting(id: string, got: seq<Frame>)

  // `Handling`: a handler is running; `emitted` are the event frames it has written. `Gone`: the server has closed the
  // connection.
  datatype Server = Idle | Handling(id: string, emitted: seq<Frame>) | Gone

  // `called` are the ids of the requests made, `served` what the server answered, `delivered` what callers got,
  // `failures` how other requests ended and `written` all frames that either end wrote.
  datatype Net = Net(
    ops: set<string>, toServer: seq<byte>, toClient: seq<byte>, client: Client, server: Server,
    called: seq<string>, served: seq<Exchange>, delivered: seq<Exchange>, failures: seq<Outcome>, written: seq<Frame>)

  datatype Step =
    | Call(id: string, op: string, payload: string)   // take the lock and write a request
    | Accept                                          // the server reads and looks up one line
    | Emit(name: string, payload: string)             // the running handler writes an event
    | Conclude(ending: Ending)                        // the running handler returns or raises
    | Read(cut: nat)                                  // the lock's holder reads one line, or drops `cut` bytes of a
                                                      // line that is too long

  function Connected(ops: set<string>): Net {
    Net(ops, [], [], Free, Idle, [], [], [], [], [])
  }

  predicate HasLine(s: seq<byte>) { NEWLINE in s }

  predicate Enabled(n: Net, st: Step) {
    match st
    case Call(id, _, _) => n.client.Free? && id !in n.called && !n.server.Gone?
    case Accept => n.server.Idle? && HasLine(n.toServer)
    case Emit(_, _) => n.server.Handling?
    case Conclude(_) => n.server.Handling?
    case Read(cut) =>
      && n.client.Awaiting? && (HasLine(n.toClient) || (n.server.Gone? && n.toClient == []))
      && (TooLong(NextLine(n.toClient)) ==> STREAM_LIMIT < cut <= |NextLine(n.toClient)|)
  }

  // The frame a step writes.
  function Writes(json: Json, n: Net, st: Step): Option<Frame>
    requires Enabled(n, st)
  {
    match st
    case Call(id, op, payload) => Some(Request(id, op, payload))
    case Emit(name, payload) => Some(Event(n.server.id, name, payload))
    case Conclude(ending) => Some(FinalFrame(n.server.id, ending))
    case Read(_) => None
    case Accept =>
      var line := NextLine(n.toServer);
      if TooLong(line) || Blank(line) then None else
        match json.loads(line)
        case None => None
        case Some(f) => if f.Request? && f.op in n.ops then None else Some(UnknownOp(f))
  }

  function Next(json: Json, n: Net, st: Step): Net
    requires Enabled(n, st)
  {
    var w := Writes(json, n, st);
    var n1 := if w.Some? then n.(written := n.written + [w.value]) else n;
    match st
    case Call(id, _, _) =>
      n1.(toServer := n.toServer + EncodeFrame(json, w.value), client := Awaiting(id, []), called := n.called + [id])
    case Accept =>
      var line := NextLine(n.toServer);
      var rest := n1.(toServer := n.toServer[|line|..]);
      if TooLong(line) then n1.(server := Gone)
      else if Blank(line) then rest
      else
        (match json.loads(line)
         case None => n1.(server := Gone)
         case Some(f) =>
           if w.None? then rest.(server := Handling(f.id, []))
           else rest.(toClient := n.toClient + EncodeFrame(json, w.value), served := n.served + [Exchange(f.id, [], w.value)]))
    case Emit(_, _) =>
      n1.(toClient := n.toClient + EncodeFrame(json, w.value), server := n.server.(emitted := n.server.emitted + [w.value]))
    case Conclude(_) =>
      n1.(toClient := n.toClient + EncodeFrame(json, w.value), server := Idle,
          served := n.served + [Exchange(n.server.id, n.server.emitted, w.value)])
    case Read(cut) =>
      var line := NextLine(n.toClient);
      var rest := n.(toClient := n.toClient[if TooLong(line) then cut else |line|..]);
      (match TakeLine(json, n.client.id, n.client.got, line)
       case More(events) => rest.(client := Awaiting(n.client.id, events))
       case Stop(Replied(x)) => rest.(client := Free, delivered := n.delivered + [x])
       case Stop(bad) => rest.(client := Free, failures := n.failures + [bad]))
  }

  ghost predicate IsRun(json: Json, n: Net, run: seq<Step>)
    decreases |run|
  {
    run == [] || (Enabled(n, run[0]) && IsRun(json, Next(json, n, run[0]), run[1..]))
  }

  ghost function After(json: Json, n: Net, run: seq<Step>): Net
    requires IsRun(json, n, run)
    decreases |run|
  {
    if run == [] then n else After(json, Next(json, n, run[0]), run[1..])
  }

  // ---- What every step keeps while no frame is too long ----

  // An exchange that answers `id`: its own events, in order, and one frame that is not an event.
  ghost predicate Answers(x: Exchange, id: string) {
    x.id == id && x.final.id == id && !x.final.Event? && !x.final.Request? &&
    forall i :: 0 <= i < |x.events| ==> x.events[i].Event? && x.events[i].id == id
  }

  // The lock is free: both pipes are empty and everything served has been delivered.
  ghost predicate Quiet(n: Net) {
    n.client.Free? && n.server.Idle? && n.toServer == [] && n.toClient == [] && n.delivered == n.served
  }

  // The request is still on its way.
  ghost predicate Sent(json: Json, n: Net, op: string, payload: string) {
    && n.client.Awaiting? && n.client.got == [] && n.server.Idle? && n.toClient == [] && n.delivered == n.served
    && n.toServer == EncodeFrame(json, Request(n.client.id, op, payload)) && Fits(json, Request(n.client.id, op, payload))
  }

  // Its handler is running: what was emitted has been read or is in the pipe.
  ghost predicate Served(json: Json, n: Net, unread: seq<Frame>) {
    && n.client.Awaiting? && n.server.Handling? && n.server.id == n.client.id && n.toServer == []
    && n.delivered == n.served && n.server.emitted == n.client.got + unread && n.toClient == EncodeAll(json, unread)
    && AllFit(json, unread)
    && forall i :: 0 <= i < |n.server.emitted| ==> n.server.emitted[i].Event? && n.server.emitted[i].id == n.client.id
  }

  // It has been answered; the rest of the answer is in the pipe, its final frame last.
  ghost predicate Answered(json: Json, n: Net, x: Exchange, unread: seq<Frame>) {
    && n.client.Awaiting? && n.server.Idle? && n.toServer == [] && Answers(x, n.client.id)
    && n.served == n.delivered + [x] && x.events == n.client.got + unread
    && n.toClient == EncodeAll(json, unread + [x.final]) && AllFit(json, unread + [x.final])
  }

  ghost predicate Ledger(n: Net) {
    && n.failures == [] && NoDup(n.called) && |n.called| == |n.delivered| + (if n.client.Free? then 0 else 1)
    && (n.client.Awaiting? ==> n.called[|n.delivered|] == n.client.id)
    && forall i :: 0 <= i < |n.delivered| ==> Answers(n.delivered[i], n.called[i])
  }

  ghost predicate Good(json: Json, n: Net) {
    && Ledger(n)
    && (|| Quiet(n)
        || (exists op, payload :: Sent(json, n, op, payload))
        || (exists unread :: Served(json, n, unread))
        || (exists x, unread :: Answered(json, n, x, unread)))
  }

  lemma EncodeOne(json: Json, f: Frame)
    ensures EncodeAll(json, [f]) == EncodeFrame(json, f)
  {
  }

  // The written frame fits.
  ghost predicate FitStep(json: Json, n: Net, st: Step)
    requires Enabled(n, st)
  {
    var w := Writes(json, n, st);
    w.Some? ==> Fits(json, w.value)
  }

  lemma StepQuiet(json: Json, n: Net, st: Step)
    requires json.Faithful() && Ledger(n) && Quiet(n) && Enabled(n, st) && FitStep(json, n, st)
    ensures Good(json, Next(json, n, st))
  {
    assert Sent(json, Next(json, n, st), st.op, st.payload);
  }

  lemma AcceptOnly(json: Json, n: Net, f: Frame)
    requires json.Faithful() && n.server.Idle? && n.toServer == EncodeAll(json, [f]) && f.Request? && Fits(json, f)
    requires Enabled(n, Accept)
    ensures Next(json, n, Accept) ==
      if f.op in n.ops then n.(toServer := [], server := Handling(f.id, []))
      else n.(toServer := [], toClient := n.toClient + EncodeFrame(json, UnknownOp(f)),
              served := n.served + [Exchange(f.id, [], UnknownOp(f))], written := n.written + [UnknownOp(f)])
    ensures f.op !in n.ops ==> Writes(json, n, Accept) == Some(UnknownOp(f))
  {
    FirstFrame(json, [f]);
  }

  lemma StepSent(json: Json, n: Net, st: Step, op: string, payload: string)
    requires json.Faithful() && Ledger(n) && Sent(json, n, op, payload) && Enabled(n, st) && FitStep(json, n, st)
    ensures Good(json, Next(json, n, st))
  {
    var f, m := Request(n.client.id, op, payload), Next(json, n, st);
    EncodeOne(json, f);
    AcceptOnly(json, n, f);
    if op in n.ops {
      assert Served(json, m, []);
    } else {
      EncodeOne(json, UnknownOp(f));
      UnknownAnswered(json, n, m, f);
    }
  }

  lemma UnknownAnswered(json: Json, n: Net, m: Net, f: Frame)
    requires n.client == Awaiting(f.id, []) && n.delivered == n.served && Fits(json, UnknownOp(f))
    requires m == n.(toServer := [], toClient := EncodeAll(json, [UnknownOp(f)]), server := Idle,
                     served := n.served + [Exchange(f.id, [], UnknownOp(f))], written := n.written + [UnknownOp(f)])
    ensures Answered(json, m, Exchange(f.id, [], UnknownOp(f)), [])
  {
    assert [] + [UnknownOp(f)] == [UnknownOp(f)];
  }

  // Reading the first unread frame.
  lemma ReadFirst(json: Json, n: Net, unread: seq<Frame>, st: Step)
    requires json.Faithful() && n.client.Awaiting? && unread != [] && n.toClient == EncodeAll(json, unread)
    requires unread[0].id == n.client.id && Fits(json, unread[0]) && st.Read? && Enabled(n, st)
    ensures Next(json, n, st) == n.(toClient := EncodeAll(json, unread[1..]), client :=
              if unread[0].Event? then Awaiting(n.client.id, n.client.got + [unread[0]]) else Free,
              delivered := if unread[0].Event? then n.delivered
                           else n.delivered + [Exchange(n.client.id, n.client.got, unread[0])])
  {
    FirstFrame(json, unread);
  }

  lemma HandlerWrites(json: Json, n: Net, st: Step, unread: seq<Frame>)
    requires Ledger(n) && Served(json, n, unread) && (st.Emit? || st.Conclude?) && Enabled(n, st) && FitStep(json, n, st)
    ensures Good(json, Next(json, n, st))
  {
    var id := n.client.id;
    var f := Writes(json, n, st).value;
    EncodeAllAppend(json, unread, [f]);
    EncodeOne(json, f);
    if st.Emit? {
      assert n.client.got + (unread + [f]) == n.server.emitted + [f];
      assert Served(json, Next(json, n, st), unread + [f]);
    } else {
      assert Answered(json, Next(json, n, st), Exchange(id, n.server.emitted, f), unread);
    }
  }

  lemma StepServed(json: Json, n: Net, st: Step, unread: seq<Frame>)
    requires json.Faithful() && Ledger(n) && Served(json, n, unread) && Enabled(n, st) && FitStep(json, n, st)
    ensures Good(json, Next(json, n, st))
  {
    if st.Read? {
      ReadEvent(json, n, st, unread);
    } else {
      HandlerWrites(json, n, st, unread);
    }
  }

  lemma Shift(got: seq<Frame>, unread: seq<Frame>)
    requires unread != []
    ensures got + [unread[0]] + unread[1..] == got + unread && (got + unread)[|got|] == unread[0]
  {
  }

  lemma ReadEvent(json: Json, n: Net, st: Step, unread: seq<Frame>)
    requires json.Faithful() && Ledger(n) && Served(json, n, unread) && st.Read? && Enabled(n, st)
    ensures Ledger(Next(json, n, st)) && Served(json, Next(json, n, st), unread[1..])
  {
    Shift(n.client.got, unread);
    assert unread[0] == n.server.emitted[|n.client.got|];
    ReadFirst(json, n, unread, st);
  }

  lemma StepAnswered(json: Json, n: Net, st: Step, x: Exchange, unread: seq<Frame>)
    requires json.Faithful() && Ledger(n) && Answered(json, n, x, unread) && Enabled(n, st)
    ensures Good(json, Next(json, n, st))
  {
    var m, all := Next(json, n, st), unread + [x.final];
    if unread == [] {
      assert all == [x.final] && all[1..] == [];
      ReadFirst(json, n, all, st);
      assert x.events == n.client.got && x == Exchange(n.client.id, n.client.got, x.final);
      assert Quiet(m);
    } else {
      Tail(unread, x.final, []);
      Shift(n.client.got, unread);
      ReadFirst(json, n, all, st);
      assert all + [] == all && unread[1..] + [x.final] + [] == unread[1..] + [x.final];
      assert Answered(json, m, x, unread[1..]);
    }
  }

  lemma GoodStep(json: Json, n: Net, st: Step)
    requires json.Faithful() && Good(json, n) && Enabled(n, st) && FitStep(json, n, st)
    ensures Good(json, Next(json, n, st))
  {
    if Quiet(n) {
      StepQuiet(json, n, st);
    } else if op, payload :| Sent(json, n, op, payload) {
      StepSent(json, n, st, op, payload);
    } else if unread :| Served(json, n, unread) {
      StepServed(json, n, st, unread);
    } else {
      var x, unread :| Answered(json, n, x, unread);
      StepAnswered(json, n, st, x, unread);
    }
  }

  // ---- What every step keeps once a frame was too long ----

  // The lock's holder has in its pipe readable events of its own and then a frame that is too long.
  ghost predicate LongAnswer(json: Json, n: Net, before: seq<Frame>, f: Frame, later: seq<Frame>) {
    && n.client.Awaiting? && n.toClient == EncodeAll(json, before + [f] + later) && !Fits(json, f) && AllFit(json, before)
    && forall i :: 0 <= i < |before| ==> before[i].Event? && before[i].id == n.client.id
  }

  ghost predicate LongRequest(json: Json, n: Net, f: Frame) {
    n.client.Awaiting? && n.server.Idle? && n.toClient == [] && n.toServer == EncodeFrame(json, f) && !Fits(json, f)
  }

  ghost predicate HungUp(n: Net) { n.client.Awaiting? && n.server.Gone? && n.toClient == [] }

  // A request has failed, or the one under way will.
  ghost predicate Doomed(json: Json, n: Net) {
    || n.failures != []
    || HungUp(n)
    || (exists f :: LongRequest(json, n, f))
    || (exists before, f, later :: LongAnswer(json, n, before, f, later))
  }

  lemma AppendAnswer(json: Json, n: Net, before: seq<Frame>, f: Frame, later: seq<Frame>, w: Frame)
    requires LongAnswer(json, n, before, f, later)
    ensures n.toClient + EncodeFrame(json, w) == EncodeAll(json, before + [f] + (later + [w]))
  {
    EncodeAllAppend(json, before + [f] + later, [w]);
    EncodeOne(json, w);
    assert before + [f] + later + [w] == before + [f] + (later + [w]);
  }

  lemma ReadOverrun(json: Json, n: Net, cut: nat)
    requires Enabled(n, Read(cut)) && TooLong(NextLine(n.toClient))
    ensures cut <= |n.toClient|
    ensures Next(json, n, Read(cut)) == n.(toClient := n.toClient[cut..], client := Free, failures := n.failures + [Overrun])
  {
    assert TakeLine(json, n.client.id, n.client.got, NextLine(n.toClient)) == Stop(Overrun);
  }

  // Reading a first unread frame that is too long.
  lemma ReadTooLong(json: Json, n: Net, unread: seq<Frame>, cut: nat)
    requires json.Faithful() && n.client.Awaiting? && unread != [] && n.toClient == EncodeAll(json, unread)
    requires !Fits(json, unread[0]) && Enabled(n, Read(cut))
    ensures cut <= |n.toClient|
    ensures Next(json, n, Read(cut)) == n.(toClient := n.toClient[cut..], client := Free, failures := n.failures + [Overrun])
    ensures cut == |NextLine(n.toClient)| ==> n.toClient[cut..] == EncodeAll(json, unread[1..])
  {
    FirstFrame(json, unread);
    ReadOverrun(json, n, cut);
  }

  lemma ReadLongAnswer(json: Json, n: Net, st: Step, before: seq<Frame>, f: Frame, later: seq<Frame>)
    requires json.Faithful() && LongAnswer(json, n, before, f, later) && st.Read? && Enabled(n, st)
    ensures var m := Next(json, n, st);
      if before == [] then m.failures == n.failures + [Overrun] else LongAnswer(json, m, before[1..], f, later)
  {
    var all := before + [f] + later;
    Tail(before, f, later);
    if before != [] {
      ReadFirst(json, n, all, st);
    } else {
      ReadTooLong(json, n, all, st.cut);
    }
  }

  lemma DoomedAnswer(json: Json, n: Net, st: Step, before: seq<Frame>, f: Frame, later: seq<Frame>)
    requires json.Faithful() && LongAnswer(json, n, before, f, later) && Enabled(n, st)
    ensures Doomed(json, Next(json, n, st))
  {
    var m, w := Next(json, n, st), Writes(json, n, st);
    if st.Read? {
      ReadLongAnswer(json, n, st, before, f, later);
    } else if w.Some? {
      AppendAnswer(json, n, before, f, later, w.value);
      assert LongAnswer(json, m, before, f, later + [w.value]);
    } else {
      assert LongAnswer(json, m, before, f, later);
    }
  }

  lemma DoomedStep(json: Json, n: Net, st: Step)
    requires json.Faithful() && Doomed(json, n) && Enabled(n, st)
    ensures Doomed(json, Next(json, n, st))
  {
    if n.failures != [] || HungUp(n) {
    } else if f :| LongRequest(json, n, f) {
      EncodeOne(json, f);
      FirstFrame(json, [f]);
    } else {
      var before, f, later :| LongAnswer(json, n, before, f, later);
      DoomedAnswer(json, n, st, before, f, later);
    }
  }

  // The step that writes the first frame that is too long.
  lemma LongStep(json: Json, n: Net, st: Step)
    requires json.Faithful() && Good(json, n) && Enabled(n, st) && !FitStep(json, n, st)
    ensures Doomed(json, Next(json, n, st))
  {
    var m, f := Next(json, n, st), Writes(json, n, st).value;
    EncodeOne(json, f);
    if Quiet(n) {
      assert LongRequest(json, m, f);
    } else if op, payload :| Sent(json, n, op, payload) {
      assert [] + [f] + [] == [f];
      assert LongAnswer(json, m, [], f, []);
    } else if unread :| Served(json, n, unread) {
      EncodeAllAppend(json, unread, [f]);
      assert unread + [f] + [] == unread + [f];
      UnreadEvents(json, n, unread);
      assert LongAnswer(json, m, unread, f, []);
    }
  }

  lemma UnreadEvents(json: Json, n: Net, unread: seq<Frame>)
    requires Served(json, n, unread)
    ensures forall i :: 0 <= i < |unread| ==> unread[i].Event? && unread[i].id == n.client.id
  {
    forall i | 0 <= i < |unread| ensures unread[i].Event? && unread[i].id == n.client.id {
      assert unread[i] == n.server.emitted[|n.client.got| + i];
    }
  }

  // ---- Whole runs ----

  ghost predicate Inv(json: Json, n: Net) {
    if AllFit(json, n.written) then Good(json, n) else Doomed(json, n)
  }

  lemma AllFitAppend(json: Json, fs: seq<Frame>, f: Frame)
    ensures AllFit(json, fs + [f]) <==> AllFit(json, fs) && Fits(json, f)
  {
    var all := fs + [f];
    assert all[|fs|] == f && forall i :: 0 <= i < |fs| ==> all[i] == fs[i];
  }

  lemma WrittenFits(json: Json, n: Net, st: Step)
    requires Enabled(n, st)
    ensures AllFit(json, Next(json, n, st).written) <==> AllFit(json, n.written) && FitStep(json, n, st)
  {
    var w := Writes(json, n, st);
    if w.Some? { AllFitAppend(json, n.written, w.value); }
  }

  lemma InvStep(json: Json, n: Net, st: Step)
    requires json.Faithful() && Inv(json, n) && Enabled(n, st)
    ensures Inv(json, Next(json, n, st))
  {
    WrittenFits(json, n, st);
    if !AllFit(json, n.written) {
      DoomedStep(json, n, st);
    } else if FitStep(json, n, st) {
      GoodStep(json, n, st);
    } else {
      LongStep(json, n, st);
    }
  }

  lemma {:induction false} InvRun(json: Json, n: Net, run: seq<Step>)
    requires json.Faithful() && Inv(json, n) && IsRun(json, n, run)
    ensures Inv(json, After(json, n, run))
    decreases |run|
  {
    if run != [] {
      InvStep(json, n, run[0]);
      InvRun(json, Next(json, n, run[0]), run[1..]);
    }
  }

  lemma Reached(json: Json, ops: set<string>, run: seq<Step>)
    requires json.Faithful() && IsRun(json, Connected(ops), run)
    ensures Inv(json, After(json, Connected(ops), run))
  {
    assert Quiet(Connected(ops));
    InvRun(json, Connected(ops), run);
  }

  // As long as no frame over the limit is written: lock-free implies both pipes empty, no request ends by raising (so
  // the branches for an unexpected frame id, for bad JSON and for a closed stream are not reached), and each call gets
  // one answer: its own handler's events, in the order in which they were emitted, and one final frame.
  lemma {:induction false} Composition(json: Json, ops: set<string>, run: seq<Step>)
    requires json.Faithful() && IsRun(json, Connected(ops), run)
    ensures var n := After(json, Connected(ops), run);
      AllFit(json, n.written) ==>
      && n.failures == []
      && (n.client.Free? ==> n.toServer == [] && n.toClient == [] && n.server.Idle? && n.delivered == n.served)
      && n.delivered <= n.served
      && NoDup(n.called) && |n.called| == |n.delivered| + (if n.client.Free? then 0 else 1)
      && (forall i :: 0 <= i < |n.delivered| ==> Answers(n.delivered[i], n.called[i]))
  {
    Reached(json, ops, run);
  }

  // The limit is the exact condition: whenever the lock is free, no request has failed if and only if every frame
  // written so far was within it.
  lemma {:induction false} FailsIffTooLong(json: Json, ops: set<string>, run: seq<Step>)
    requires json.Faithful() && IsRun(json, Connected(ops), run) && After(json, Connected(ops), run).client.Free?
    ensures var n := After(json, Connected(ops), run); n.failures == [] <==>
              forall i :: 0 <= i < |n.written| ==> |json.dumps(n.written[i])| <= 10 * 1024 * 1024
  {
    Reached(json, ops, run);
    var n := After(json, Connected(ops), run);
    assert AllFit(json, n.written) <==> forall i :: 0 <= i < |n.written| ==> |json.dumps(n.written[i])| <= 10 * 1024 * 1024;
  }

  // ---- What the answers say, told from the steps alone ----

  // How a request was served: what its handler emitted and how it ended; None for an operation that is not known.
  datatype Performance = Performance(request: Frame, events: seq<(string, string)>, ending: Option<Ending>)

  // The requests made, the events emitted for the one being handled, and the performances concluded.
  datatype Log = Log(requests: seq<Frame>, doing: seq<(string, string)>, done: seq<Performance>)

  function Logged(ops: set<string>, log: Log, st: Step): Log {
    var k := |log.done|;
    match st
    case Call(id, op, payload) => log.(requests := log.requests + [Request(id, op, payload)])
    case Accept =>
      if k < |log.requests| && log.requests[k].Request? && log.requests[k].op !in ops then
        log.(done := log.done + [Performance(log.requests[k], [], None)])
      else log.(doing := [])
    case Emit(name, payload) => log.(doing := log.doing + [(name, payload)])
    case Conclude(ending) =>
      if k < |log.requests| then log.(doing := [], done := log.done + [Performance(log.requests[k], log.doing, Some(ending))])
      else log
    case Read(_) => log
  }

  function LoggedAll(ops: set<string>, log: Log, run: seq<Step>): Log
    decreases |run|
  {
    if run == [] then log else LoggedAll(ops, Logged(ops, log, run[0]), run[1..])
  }

  ghost predicate EventsTell(id: string, frames: seq<Frame>, events: seq<(string, string)>) {
    |frames| == |events| && forall k :: 0 <= k < |events| ==> frames[k] == Event(id, events[k].0, events[k].1)
  }

  // The exchange carries what was emitted and what was returned or raised.
  ghost predicate Tells(ops: set<string>, x: Exchange, p: Performance) {
    && p.request.Request? && x.id == p.request.id && EventsTell(x.id, x.events, p.events)
    && (p.ending.Some? <==> p.request.op in ops)
    && x.final == match p.ending
                  case Some(Returned(Some(r))) => Ok(x.id, r)
                  case Some(Returned(None)) => Ok(x.id, "{}")
                  case Some(Raised(m, c)) => Error(x.id, m, c, "{}")
                  case None => Error(x.id, "unknown op: " + p.request.op, "unknown_op", "{}")
  }

  ghost predicate Linked(json: Json, n: Net, log: Log) {
    var k := |log.done|;
    && |log.requests| == |n.called| && k == |n.served| && k <= |log.requests|
    && (forall i :: 0 <= i < |log.requests| ==> log.requests[i].Request? && log.requests[i].id == n.called[i])
    && (forall i :: 0 <= i < k ==> log.done[i].request == log.requests[i] && Tells(n.ops, n.served[i], log.done[i]))
    && (n.server.Handling? ==> k < |log.requests| && n.server.id == log.requests[k].id && log.requests[k].op in n.ops &&
                               EventsTell(n.server.id, n.server.emitted, log.doing))
    && (n.toServer != [] ==> k == |log.requests| - 1 && n.toServer == EncodeFrame(json, log.requests[k]))
  }

  lemma LinkCall(json: Json, n: Net, log: Log, st: Step)
    requires Ledger(n) && Quiet(n) && Linked(json, n, log) && st.Call? && Enabled(n, st)
    ensures Linked(json, Next(json, n, st), Logged(n.ops, log, st))
  {
    assert [] + EncodeFrame(json, Request(st.id, st.op, st.payload)) == EncodeFrame(json, Request(st.id, st.op, st.payload));
  }

  lemma LinkAccept(json: Json, n: Net, log: Log, op: string, payload: string)
    requires json.Faithful() && Ledger(n) && Sent(json, n, op, payload) && Linked(json, n, log) && Enabled(n, Accept)
    ensures Linked(json, Next(json, n, Accept), Logged(n.ops, log, Accept))
  {
    var f := log.requests[|log.done|];
    SameFrame(json, f, Request(n.client.id, op, payload));
    EncodeOne(json, f);
    AcceptOnly(json, n, f);
  }

  lemma SameFrame(json: Json, f: Frame, g: Frame)
    requires json.Faithful() && EncodeFrame(json, f) == EncodeFrame(json, g)
    ensures f == g
  {
    EncodeOne(json, f);
    EncodeOne(json, g);
    FirstFrame(json, [f]);
    FirstFrame(json, [g]);
  }

  lemma LinkHandler(json: Json, n: Net, log: Log, st: Step, unread: seq<Frame>)
    requires Ledger(n) && Served(json, n, unread) && Linked(json, n, log) && (st.Emit? || st.Conclude?) && Enabled(n, st)
    ensures Linked(json, Next(json, n, st), Logged(n.ops, log, st))
  {
  }

  lemma LinkRead(json: Json, n: Net, log: Log, st: Step)
    requires Linked(json, n, log) && st.Read? && Enabled(n, st)
    ensures Linked(json, Next(json, n, st), Logged(n.ops, log, st))
  {
    ReadEffect(json, n, st.cut);
  }

  lemma LinkStep(json: Json, n: Net, log: Log, st: Step)
    requires json.Faithful() && Good(json, n) && Linked(json, n, log) && Enabled(n, st)
    ensures Linked(json, Next(json, n, st), Logged(n.ops, log, st))
  {
    if st.Read? {
      LinkRead(json, n, log, st);
    } else if Quiet(n) {
      LinkCall(json, n, log, st);
    } else if op, payload :| Sent(json, n, op, payload) {
      LinkAccept(json, n, log, op, payload);
    } else if unread :| Served(json, n, unread) {
      LinkHandler(json, n, log, st, unread);
    }
  }

  lemma {:induction false} LinkRun(json: Json, n: Net, log: Log, run: seq<Step>)
    requires json.Faithful() && Inv(json, n) && IsRun(json, n, run) && (AllFit(json, n.written) ==> Linked(json, n, log))
    ensures AllFit(json, After(json, n, run).written) ==> Linked(json, After(json, n, run), LoggedAll(n.ops, log, run))
    decreases |run|
  {
    if run != [] {
      InvStep(json, n, run[0]);
      WrittenFits(json, n, run[0]);
      if AllFit(json, n.written) { LinkStep(json, n, log, run[0]); }
      LinkRun(json, Next(json, n, run[0]), Logged(n.ops, log, run[0]), run[1..]);
    }
  }

  // As long as no frame over the limit is written, the n-th answer delivered is that of the n-th request made: the events
  // that its handler emitted, in order and with their payloads, and the result that it returned or what it raised.
  lemma {:induction false} AnswersTell(json: Json, ops: set<string>, run: seq<Step>)
    requires json.Faithful() && IsRun(json, Connected(ops), run)
    ensures var n, log := After(json, Connected(ops), run), LoggedAll(ops, Log([], [], []), run);
      AllFit(json, n.written) ==>
        && |n.delivered| <= |log.done| <= |log.requests|
        && (n.client.Free? ==> |n.delivered| == |log.done| == |log.requests|)
        && forall i :: 0 <= i < |n.delivered| ==>
             log.done[i].request == log.requests[i] && Tells(n.ops, n.delivered[i], log.done[i])
  {
    assert Quiet(Connected(ops));
    Reached(json, ops, run);
    LinkRun(json, Connected(ops), Log([], [], []), run);
  }

  // ---- Progress ----

  lemma WrittenIsReadable(json: Json, fs: seq<Frame>)
    requires fs != []
    ensures HasLine(EncodeAll(json, fs))
  {
    assert EncodeAll(json, fs)[|json.dumps(fs[0])|] == NEWLINE;
  }

  // The read that takes all of a line.
  function FullRead(n: Net): Step { Read(|NextLine(n.toClient)|) }

  // Until a request has failed, a caller that waits never waits for nothing: a line is on its way to the server or to
  // the client, the server has hung up, or a handler runs.
  lemma {:induction false} WaitingIsServed(json: Json, ops: set<string>, run: seq<Step>)
    requires json.Faithful() && IsRun(json, Connected(ops), run)
    requires var n := After(json, Connected(ops), run); n.client.Awaiting? && n.failures == []
    ensures var n := After(json, Connected(ops), run);
      n.server.Handling? || Enabled(n, Accept) || Enabled(n, FullRead(n))
  {
    Reached(json, ops, run);
    var n := After(json, Connected(ops), run);
    if AllFit(json, n.written) { GoodMoves(json, n); } else { DoomedMoves(json, n); }
  }

  lemma GoodMoves(json: Json, n: Net)
    requires json.Faithful() && Good(json, n) && n.client.Awaiting?
    ensures n.server.Handling? || Enabled(n, Accept) || Enabled(n, FullRead(n))
  {
    if op, payload :| Sent(json, n, op, payload) {
      WrittenIsReadable(json, [Request(n.client.id, op, payload)]);
      EncodeOne(json, Request(n.client.id, op, payload));
    } else if x, unread :| Answered(json, n, x, unread) {
      WrittenIsReadable(json, unread + [x.final]);
    }
  }

  lemma DoomedMoves(json: Json, n: Net)
    requires json.Faithful() && Doomed(json, n) && n.client.Awaiting? && n.failures == []
    ensures n.server.Handling? || Enabled(n, Accept) || Enabled(n, FullRead(n))
  {
    if HungUp(n) {
    } else if f :| LongRequest(json, n, f) {
      WrittenIsReadable(json, [f]);
      EncodeOne(json, f);
    } else {
      var before, f, later :| LongAnswer(json, n, before, f, later);
      WrittenIsReadable(json, before + [f] + later);
    }
  }

  // Steps that bring requests and answers on, no call and no further event.
  predicate Settles(st: Step) { st.Accept? || st.Conclude? || st.Read? }

  function Lines(s: seq<byte>): nat {
    if s == [] then 0 else Lines(s[1..]) + if s[0] == NEWLINE then 1 else 0
  }

  function Underway(n: Net): nat {
    3 * Lines(n.toServer) + Lines(n.toClient) + (if n.client.Awaiting? then 1 else 0)
    + match n.server case Idle => 1 case Handling(_, _) => 3 case Gone => 0
  }

  lemma {:induction false} LinesJoin(a: seq<byte>, b: seq<byte>)
    ensures Lines(a + b) == Lines(a) + Lines(b)
  {
    if a == [] {
      assert a + b == b;
    } else {
      LinesJoin(a[1..], b);
      assert (a + b)[1..] == a[1..] + b;
    }
  }

  lemma {:induction false} NoLines(s: seq<byte>)
    requires NEWLINE !in s
    ensures Lines(s) == 0
  {
    if s != [] { NoLines(s[1..]); }
  }

  lemma {:induction false} FrameIsOneLine(json: Json, f: Frame, s: seq<byte>)
    requires json.Faithful()
    ensures Lines(s + EncodeFrame(json, f)) == Lines(s) + 1
  {
    LinesJoin(s, EncodeFrame(json, f));
    LinesJoin(json.dumps(f), [NEWLINE]);
    NoLines(json.dumps(f));
    assert [NEWLINE][1..] == [];
  }

  lemma {:induction false} NextLineIsOneLine(s: seq<byte>)
    requires HasLine(s)
    ensures Lines(s[|NextLine(s)|..]) == Lines(s) - 1
  {
    if s[0] != NEWLINE {
      NextLineIsOneLine(s[1..]);
      assert s[|NextLine(s)|..] == s[1..][|NextLine(s[1..])|..];
    }
  }

  lemma {:induction false} CutLines(s: seq<byte>, cut: nat)
    requires cut <= |s|
    ensures Lines(s[cut..]) <= Lines(s)
  {
    LinesJoin(s[..cut], s[cut..]);
    assert s[..cut] + s[cut..] == s;
  }

  lemma AcceptWorks(json: Json, n: Net)
    requires json.Faithful() && Enabled(n, Accept)
    ensures Underway(Next(json, n, Accept)) < Underway(n)
  {
    NextLineIsOneLine(n.toServer);
    var w := Writes(json, n, Accept);
    if w.Some? { FrameIsOneLine(json, w.value, n.toClient); }
  }

  lemma ReadEffect(json: Json, n: Net, cut: nat)
    requires Enabled(n, Read(cut))
    ensures var m, line := Next(json, n, Read(cut)), NextLine(n.toClient);
      && m.server == n.server && m.toServer == n.toServer && m.served == n.served && m.called == n.called && m.ops == n.ops
      && (if TooLong(line) then cut else |line|) <= |n.toClient|
      && m.toClient == n.toClient[if TooLong(line) then cut else |line|..]
      && (m.client.Free? || (m.client.Awaiting? && line != [] && !TooLong(line)))
  {
  }

  lemma ReadWorks(json: Json, n: Net, cut: nat)
    requires Enabled(n, Read(cut))
    ensures Underway(Next(json, n, Read(cut))) < Underway(n)
  {
    var line := NextLine(n.toClient);
    if HasLine(n.toClient) { NextLineIsOneLine(n.toClient); }
    if TooLong(line) { CutLines(n.toClient, cut); }
    ReadEffect(json, n, cut);
  }

  lemma SettlingStepWorks(json: Json, n: Net, st: Step)
    requires json.Faithful() && Settles(st) && Enabled(n, st)
    ensures Underway(Next(json, n, st)) < Underway(n)
  {
    match st
    case Accept => AcceptWorks(json, n);
    case Read(cut) => ReadWorks(json, n, cut);
    case Conclude(ending) => FrameIsOneLine(json, FinalFrame(n.server.id, ending), n.toClient);
  }

  lemma {:induction false} SettlingBound(json: Json, n: Net, run: seq<Step>)
    requires json.Faithful() && IsRun(json, n, run) && forall i :: 0 <= i < |run| ==> Settles(run[i])
    ensures |run| + Underway(After(json, n, run)) <= Underway(n)
    decreases |run|
  {
    if run != [] {
      SettlingStepWorks(json, n, run[0]);
      SettlingBound(json, Next(json, n, run[0]), run[1..]);
    }
  }

  ghost predicate Settled(n: Net) {
    forall st :: Settles(st) ==> !Enabled(n, st)
  }

  // Once handlers emit no more and nobody calls, the steps that are left come to an end within a bound, and if no request
  // has failed by then the lock is free and both pipes are empty.
  lemma {:induction false} GuaranteedReply(json: Json, ops: set<string>, prefix: seq<Step>, run: seq<Step>)
    requires json.Faithful() && IsRun(json, Connected(ops), prefix) && IsRun(json, After(json, Connected(ops), prefix), run)
    requires forall i :: 0 <= i < |run| ==> Settles(run[i])
    ensures |run| <= Underway(After(json, Connected(ops), prefix))
    ensures var n := After(json, After(json, Connected(ops), prefix), run);
      Settled(n) && n.failures == [] ==> n.client.Free? && AllFit(json, n.written) && n.toServer == [] && n.toClient == []
  {
    var n := After(json, Connected(ops), prefix);
    Reached(json, ops, prefix);
    InvRun(json, n, run);
    SettlingBound(json, n, run);
    var m := After(json, n, run);
    if Settled(m) && m.failures == [] {
      if m.client.Awaiting? {
        if AllFit(json, m.written) { GoodMoves(json, m); } else { DoomedMoves(json, m); }
        var accept, read, conclude := Enabled(m, Accept), Enabled(m, FullRead(m)), Enabled(m, Conclude(Returned(None)));
        assert false;
      }
    }
  }

  // ---- The two ends called in sequence ----

  lemma AwaitFirst(json: Json, id: string, got: seq<Frame>, all: seq<Frame>)
    requires json.Faithful() && all != [] && all[0].id == id
    ensures Await(json, id, got, EncodeAll(json, all)) ==
      if !Fits(json, all[0]) then (Overrun, EncodeAll(json, all))
      else if all[0].Event? then Await(json, id, got + [all[0]], EncodeAll(json, all[1..]))
      else (Replied(Exchange(id, got, all[0])), EncodeAll(json, all[1..]))
  {
    FirstFrame(json, all);
  }

  // Events of its own are taken one by one, whatever follows.
  lemma {:induction false} AwaitTakesEvents(json: Json, id: string, got: seq<Frame>, events: seq<Frame>, tail: seq<byte>)
    requires json.Faithful() && forall i :: 0 <= i < |events| ==> IsOwnEvent(json, id, events[i])
    ensures Await(json, id, got, EncodeAll(json, events) + tail) == Await(json, id, got + events, tail)
  {
    AwaitReaches(json, id, got, events, tail, got + events);
  }

  lemma {:induction false} AwaitReaches(json: Json, id: string, got: seq<Frame>, events: seq<Frame>, tail: seq<byte>, all: seq<Frame>)
    requires json.Faithful() && (forall i :: 0 <= i < |events| ==> IsOwnEvent(json, id, events[i])) && all == got + events
    ensures Await(json, id, got, EncodeAll(json, events) + tail) == Await(json, id, all, tail)
    decreases |events|
  {
    if events == [] {
      assert EncodeAll(json, events) + tail == tail && all == got;
    } else {
      AwaitTakesOne(json, id, got, events, tail);
      Shift(got, events);
      AwaitReaches(json, id, got + [events[0]], events[1..], tail, all);
    }
  }

  predicate IsOwnEvent(json: Json, id: string, f: Frame) { Fits(json, f) && f.Event? && f.id == id }

  lemma AwaitTakesOne(json: Json, id: string, got: seq<Frame>, events: seq<Frame>, tail: seq<byte>)
    requires json.Faithful() && events != [] && IsOwnEvent(json, id, events[0])
    ensures Await(json, id, got, EncodeAll(json, events) + tail) ==
            Await(json, id, got + [events[0]], EncodeAll(json, events[1..]) + tail)
  {
    var body, rest := json.dumps(events[0]), EncodeAll(json, events[1..]) + tail;
    NextLineStops(body, rest);
    assert EncodeAll(json, events) + tail == body + [NEWLINE] + rest;
  }

  // What else can follow them ends the request: the end of the stream, a line that is not JSON, one that is too long, or a
  // frame of another request, which is named.
  lemma AwaitStops(json: Json, id: string, got: seq<Frame>, body: seq<byte>, rest: seq<byte>)
    requires NEWLINE !in body
    ensures Await(json, id, got, []).0 == Closed
    ensures var (outcome, left) := Await(json, id, got, body + [NEWLINE] + rest);
      && (|body| > 10 * 1024 * 1024 ==> outcome == Overrun && left == body + [NEWLINE] + rest)
      && (|body| <= 10 * 1024 * 1024 ==>
            match json.loads(body + [NEWLINE])
            case None => outcome == BadJson && left == rest
            case Some(f) => f.id != id ==> outcome == UnexpectedId(f.id) && left == rest)
  {
    NextLineStops(body, rest);
    var s := body + [NEWLINE] + rest;
    assert s[|body + [NEWLINE]|..] == rest;
  }

  // On the bytes the server writes for a request the client's loops stop at its final frame and leave whatever follows.
  lemma {:induction false} AwaitEvents(json: Json, id: string, got: seq<Frame>, events: seq<Frame>, final: Frame, later: seq<Frame>)
    requires json.Faithful() && final.id == id && !final.Event? && AllFit(json, events) && Fits(json, final)
    requires forall i :: 0 <= i < |events| ==> events[i].Event? && events[i].id == id
    ensures Await(json, id, got, EncodeAll(json, events + [final] + later)) ==
              (Replied(Exchange(id, got + events, final)), EncodeAll(json, later))
  {
    AwaitBeyondEvents(json, id, got, events, [final] + later);
    AwaitFirst(json, id, got + events, [final] + later);
    assert events + [final] + later == events + ([final] + later);
    assert ([final] + later)[1..] == later;
  }

  lemma AwaitBeyondEvents(json: Json, id: string, got: seq<Frame>, events: seq<Frame>, rest: seq<Frame>)
    requires json.Faithful() && AllFit(json, events) && forall i :: 0 <= i < |events| ==> events[i].Event? && events[i].id == id
    ensures Await(json, id, got, EncodeAll(json, events + rest)) == Await(json, id, got + events, EncodeAll(json, rest))
  {
    EncodeAllAppend(json, events, rest);
    assert forall i :: 0 <= i < |events| ==> IsOwnEvent(json, id, events[i]);
    AwaitTakesEvents(json, id, got, events, EncodeAll(json, rest));
  }

  // And they stop with an error at a frame that is too long, wherever it is.
  lemma {:induction false} AwaitOverruns(json: Json, id: string, got: seq<Frame>, events: seq<Frame>, long: Frame, later: seq<Frame>)
    requires json.Faithful() && long.id == id && AllFit(json, events) && !Fits(json, long)
    requires forall i :: 0 <= i < |events| ==> events[i].Event? && events[i].id == id
    ensures Await(json, id, got, EncodeAll(json, events + [long] + later)) == (Overrun, EncodeAll(json, [long] + later))
  {
    AwaitBeyondEvents(json, id, got, events, [long] + later);
    AwaitFirst(json, id, got + events, [long] + later);
    assert events + [long] + later == events + ([long] + later);
  }

  lemma FirstLong(json: Json, fs: seq<Frame>) returns (k: nat)
    requires !AllFit(json, fs)
    ensures k < |fs| && !Fits(json, fs[k]) && AllFit(json, fs[..k])
  {
    k := 0;
    while Fits(json, fs[k])
      invariant k < |fs| && AllFit(json, fs[..k])
      decreases |fs| - k
    {
      assert AllFit(json, fs[..k + 1]);
      k := k + 1;
    }
  }

  // Events of the request, and one frame of it that is not an event.
  ghost predicate IsReply(reply: seq<Frame>, id: string) {
    && reply != [] && !reply[|reply| - 1].Event?
    && (forall i :: 0 <= i < |reply| ==> reply[i].id == id)
    && (forall i :: 0 <= i < |reply| - 1 ==> reply[i].Event?)
  }

  lemma AwaitFittingReply(json: Json, id: string, reply: seq<Frame>, later: seq<Frame>)
    requires json.Faithful() && IsReply(reply, id) && AllFit(json, reply)
    ensures Await(json, id, [], EncodeAll(json, reply + later)) ==
              (Replied(Exchange(id, reply[..|reply| - 1], reply[|reply| - 1])), EncodeAll(json, later))
  {
    var events, final := reply[..|reply| - 1], reply[|reply| - 1];
    assert events + [final] == reply && [] + events == events;
    AwaitEvents(json, id, [], events, final, later);
  }

  lemma Rejoin(reply: seq<Frame>, k: nat, later: seq<Frame>)
    requires k < |reply|
    ensures reply[..k] + [reply[k]] + (reply[k + 1..] + later) == reply + later
  {
  }

  lemma AwaitLongReply(json: Json, id: string, reply: seq<Frame>, later: seq<Frame>)
    requires json.Faithful() && IsReply(reply, id) && !AllFit(json, reply)
    ensures Await(json, id, [], EncodeAll(json, reply + later)).0 == Overrun
  {
    var k := FirstLong(json, reply);
    AwaitOverruns(json, id, [], reply[..k], reply[k], reply[k + 1..] + later);
    Rejoin(reply, k, later);
  }

  // The client's loop gets the handler's events and final frame, and leaves what follows, if and only if every one of
  // these frames is within the limit; otherwise it ends by raising.
  lemma {:induction false} AwaitResponse(json: Json, ops: set<string>, id: string, op: string, payload: string, script: Script, later: seq<Frame>)
    requires json.Faithful()
    ensures var reply := Response(ops, Request(id, op, payload), script);
      Await(json, id, [], EncodeAll(json, reply + later)) ==
        if AllFit(json, reply) then (Replied(Exchange(id, reply[..|reply| - 1], reply[|reply| - 1])), EncodeAll(json, later))
        else (Overrun, Await(json, id, [], EncodeAll(json, reply + later)).1)
  {
    var reply := Response(ops, Request(id, op, payload), script);
    if AllFit(json, reply) {
      AwaitFittingReply(json, id, reply, later);
    } else {
      AwaitLongReply(json, id, reply, later);
    }
  }

  // ---- What a frame over the limit does ----

  lemma {:induction false} Extend(json: Json, n: Net, run: seq<Step>, st: Step)
    requires IsRun(json, n, run) && Enabled(After(json, n, run), st)
    ensures IsRun(json, n, run + [st]) && After(json, n, run + [st]) == Next(json, After(json, n, run), st)
    decreases |run|
  {
    if run == [] {
      assert run + [st] == [st] && [st][1..] == [];
    } else {
      Extend(json, Next(json, n, run[0]), run[1..], st);
      assert (run + [st])[1..] == run[1..] + [st];
    }
  }

  // Running `a`, whose handler has emitted `events`.
  function Running(json: Json, ops: set<string>, a: Frame, events: seq<Frame>): Net {
    Net(ops, [], EncodeAll(json, events), Awaiting(a.id, []), Handling(a.id, events), [a.id], [], [], [], [a] + events)
  }

  // `a` has been answered, and nothing of that has been read.
  function Unread(json: Json, ops: set<string>, a: Frame, events: seq<Frame>, final: Frame): Net {
    Net(ops, [], EncodeAll(json, events + [final]), Awaiting(a.id, []), Idle, [a.id], [Exchange(a.id, events, final)], [], [],
        [a] + events + [final])
  }

  function Requested(json: Json, ops: set<string>, a: Frame): Net {
    Net(ops, EncodeAll(json, [a]), [], Awaiting(a.id, []), Idle, [a.id], [], [], [], [a])
  }

  lemma RequestWritten(json: Json, ops: set<string>, a: Frame)
    requires a.Request?
    ensures var st := Call(a.id, a.op, a.payload);
      Enabled(Connected(ops), st) && Next(json, Connected(ops), st) == Requested(json, ops, a)
  {
    EncodeOne(json, a);
    assert [] + EncodeFrame(json, a) == EncodeFrame(json, a);
    assert [] + [a] == [a] && [] + [a.id] == [a.id];
  }

  lemma RequestAccepted(json: Json, ops: set<string>, a: Frame)
    requires json.Faithful() && a.Request? && a.op in ops && Fits(json, a)
    ensures var n := Requested(json, ops, a);
      Enabled(n, Accept) && Next(json, n, Accept) == Running(json, ops, a, [])
  {
    WrittenIsReadable(json, [a]);
    AcceptOnly(json, Requested(json, ops, a), a);
  }

  lemma EventEmitted(json: Json, ops: set<string>, a: Frame, event: Frame)
    requires event.Event? && event.id == a.id
    ensures var st := Emit(event.name, event.payload); var n := Running(json, ops, a, []);
      Enabled(n, st) && Next(json, n, st) == Running(json, ops, a, [event])
  {
    EncodeOne(json, event);
    var n := Running(json, ops, a, []);
    assert n.toClient + EncodeFrame(json, event) == EncodeAll(json, [event]);
    assert n.server.emitted + [event] == [event];
    assert n.written + [event] == [a] + [event];
  }

  lemma RequestConcluded(json: Json, ops: set<string>, a: Frame, events: seq<Frame>)
    ensures var st := Conclude(Returned(None)); var n := Running(json, ops, a, events);
      Enabled(n, st) && Next(json, n, st) == Unread(json, ops, a, events, OkResponse(a.id, None))
  {
    var answer := OkResponse(a.id, None);
    EncodeAllAppend(json, events, [answer]);
    EncodeOne(json, answer);
  }

  // What is left when the lock's holder has met the event.
  function Overran(json: Json, ops: set<string>, a: Frame, event: Frame, final: Frame): Net {
    Unread(json, ops, a, [event], final).(toClient := EncodeAll(json, [final]), client := Free, failures := [Overrun])
  }

  lemma EventOverruns(json: Json, ops: set<string>, a: Frame, event: Frame, final: Frame)
    requires json.Faithful() && event.Event? && !Fits(json, event)
    ensures var n := Unread(json, ops, a, [event], final);
      Enabled(n, FullRead(n)) && Next(json, n, FullRead(n)) == Overran(json, ops, a, event, final)
  {
    var n, all := Unread(json, ops, a, [event], final), [event] + [final];
    WrittenIsReadable(json, all);
    ReadTooLong(json, n, all, |NextLine(n.toClient)|);
    assert all[1..] == [final];
  }

  lemma ReadForeign(json: Json, n: Net, f: Frame)
    requires json.Faithful() && n.client.Awaiting? && n.toClient == EncodeAll(json, [f]) && f.id != n.client.id && Fits(json, f)
    ensures Enabled(n, FullRead(n)) && Next(json, n, FullRead(n)).failures == n.failures + [UnexpectedId(f.id)]
  {
    FirstFrame(json, [f]);
    WrittenIsReadable(json, [f]);
  }

  lemma NextCallFails(json: Json, ops: set<string>, a: Frame, b: Frame, event: Frame, final: Frame)
    requires json.Faithful() && b.Request? && a.id != b.id && final.id == a.id && Fits(json, final)
    ensures var n := Overran(json, ops, a, event, final); var call := Call(b.id, b.op, b.payload);
      && Enabled(n, call)
      && var n1 := Next(json, n, call);
      && Enabled(n1, FullRead(n1)) && Next(json, n1, FullRead(n1)).failures == [Overrun, UnexpectedId(a.id)]
  {
    ReadForeign(json, Next(json, Overran(json, ops, a, event, final), Call(b.id, b.op, b.payload)), final);
    assert [Overrun] + [UnexpectedId(a.id)] == [Overrun, UnexpectedId(a.id)];
  }

  lemma FirstThree(json: Json, ops: set<string>, a: Frame, event: Frame) returns (run: seq<Step>)
    requires json.Faithful() && a.Request? && a.op in ops && Fits(json, a) && event.Event? && event.id == a.id
    ensures IsRun(json, Connected(ops), run) && After(json, Connected(ops), run) == Running(json, ops, a, [event])
  {
    RequestWritten(json, ops, a);
    RequestAccepted(json, ops, a);
    EventEmitted(json, ops, a, event);
    var n, call := Connected(ops), Call(a.id, a.op, a.payload);
    Extend(json, n, [], call);
    Extend(json, n, [] + [call], Accept);
    Extend(json, n, [] + [call] + [Accept], Emit(event.name, event.payload));
    run := [] + [call] + [Accept] + [Emit(event.name, event.payload)];
  }

  // A handler emits one event that is too long and then answers: the request ends by raising with its answer still in
  // the pipe, and the next caller reads that instead of its own.
  lemma {:induction false} LongEventBreaksNextCall(json: Json, ops: set<string>, a: Frame, b: Frame, event: Frame) returns (run: seq<Step>)
    requires json.Faithful() && a.Request? && b.Request? && a.id != b.id && a.op in ops && Fits(json, a)
    requires event.Event? && event.id == a.id && !Fits(json, event) && Fits(json, OkResponse(a.id, None))
    ensures IsRun(json, Connected(ops), run)
    ensures After(json, Connected(ops), run).failures == [Overrun, UnexpectedId(a.id)]
  {
    var n, answer := Connected(ops), OkResponse(a.id, None);
    run := FirstThree(json, ops, a, event);
    RequestConcluded(json, ops, a, [event]);
    Extend(json, n, run, Conclude(Returned(None)));
    run := run + [Conclude(Returned(None))];
    EventOverruns(json, ops, a, event, answer);
    var read := FullRead(Unread(json, ops, a, [event], answer));
    Extend(json, n, run, read);
    run := run + [read];
    NextCallFails(json, ops, a, b, event, answer);
    var call := Call(b.id, b.op, b.payload);
    Extend(json, n, run, call);
    run := run + [call];
    var read2 := FullRead(After(json, n, run));
    Extend(json, n, run, read2);
    run := run + [read2];
  }
}
