// The MCP client's request loop (shared/codex_mcp/client.py): JSON-RPC 2.0 over the lines of a child process.
module Mcp {
  import opened Common

  // A value of an "id" key. Python compares numbers across int, float and bool.
  datatype Id = NullId | IntId(n: int) | FloatId(r: real) | BoolId(b: bool) | TextId(text: string) | OtherId(json: string) {
    predicate Is(reqId: int) {
      match this
      case IntId(n) => n == reqId
      case FloatId(r) => r == reqId as real
      case BoolId(b) => reqId == if b then 1 else 0
      case _ => false
    }
  }

  datatype ErrorValue = ErrorObject(message: string, dump: string) | OtherError(text: string)
  datatype ResultField = NoResult | ObjectResult(json: string) | OtherResult

  // A JSON object received. `name` is the text of the "method" key when there is one ("" for a null or empty one).
  datatype Message = Message(name: Option<string>, id: Option<Id>, error: Option<ErrorValue>, result: ResultField) {
    // The id of a server request, when it carries one that is not null.
    function Asks(): Option<Id> {
      if name.Some? && id.Some? && id.value != NullId then id else None
    }

    predicate Answers(reqId: int) {
      name.None? && id.Some? && id.value.Is(reqId)
    }
  }

  // Why readline, decode or json.loads raises something else than JSONDecodeError: the line is longer than the stream's
  // limit of 10 MiB (ValueError), is not UTF-8 (UnicodeDecodeError), or is refused by json.loads in another way (as are
  // an integer of too many digits with a ValueError and too deep nesting with a RecursionError).
  datatype Cause = TooLong | NotUtf8 | Refused

  // One line of the process's output. `left` is what a line that is too long leaves for the next reading: nothing, or the
  // one line made of what arrived of it after readline had given up.
  datatype Line =
    | Blank
    | NotJson         // valid UTF-8 on which json.loads raises JSONDecodeError
    | Unreadable(why: Cause, left: seq<Line>)
    | NotObject       // JSON, but not an object
    | Object(m: Message)

  datatype Sent =
    | Call(requestId: int, name: string, params: string)
    | Pong(id: Id)
    | Roots(id: Id, uri: string, name: string)
    | Unsupported(id: Id, code: int, name: string)
  {
    // The id a reply carries.
    function ReplyId(): Option<Id> {
      if Call? then None else Some(id)
    }
  }

  const METHOD_NOT_FOUND: int := -32601

  datatype Outcome =
    | Returned(json: string)
    | RpcError(detail: string)
    | BadResult          // "invalid JSON-RPC result payload"
    | BadMessage         // "invalid JSON-RPC message"
    | Uncaught(why: Cause)   // an exception that the loop does not catch
    | ClosedEarly        // the process closed its output

  predicate Noise(line: Line) { line.Blank? || line.NotJson? }

  // The lines that end any request with an error.
  predicate Poison(line: Line) { line.Unreadable? || line.NotObject? }

  // What stays of a line that has been read.
  function Left(line: Line): seq<Line> {
    if line.Unreadable? && line.why.TooLong? then line.left else []
  }

  // The lines on which the wait for the answer to `reqId` ends.
  predicate Ends(line: Line, reqId: int) {
    Poison(line) || (line.Object? && line.m.Answers(reqId))
  }

  function ErrorDetail(e: ErrorValue): string {
    match e
    case ErrorObject(message, dump) => if message != "" then message else dump
    case OtherError(text) => text
  }

  function Ending(line: Line, reqId: int): Outcome
    requires Ends(line, reqId)
  {
    match line
    case Unreadable(why, _) => Uncaught(why)
    case NotObject => BadMessage
    case Object(m) => Answer(m)
  }

  function Answer(m: Message): Outcome {
    if m.error.Some? then RpcError(ErrorDetail(m.error.value)) else
      match m.result
      case NoResult => Returned("{}")
      case ObjectResult(json) => Returned(json)
      case OtherResult => BadResult
  }

  // The working directory's URI and name, as roots/list reports them.
  datatype Root = Root(uri: string, name: string)

  // The replies a message draws: one for a server request with an id, none for anything else.
  function RepliesTo(root: Root, m: Message): seq<Sent> {
    if m.Asks().None? then [] else
      var id := m.Asks().value;
      if m.name.value == "ping" then [Pong(id)]
      else if m.name.value == "roots/list" then [Roots(id, root.uri, root.name)]
      else [Unsupported(id, METHOD_NOT_FOUND, m.name.value)]
  }

  function Replies(root: Root, lines: seq<Line>): seq<Sent> {
    if lines == [] then [] else
      (if lines[0].Object? then RepliesTo(root, lines[0].m) else []) + Replies(root, lines[1..])
  }

  class CodexMCPClient {
    const root: Root
    var requestId: nat
    var incoming: seq<Line>   // the process's output still to be read, up to its end
    var sent: seq<Sent>

    constructor (root: Root, incoming: seq<Line>)
      ensures this.root == root && requestId == 0 && this.incoming == incoming && sent == []
    {
      this.root, this.requestId, this.incoming, this.sent := root, 0, incoming, [];
    }

    method Send(s: Sent)
      modifies this`sent
      ensures sent == old(sent) + [s]
    {
      sent := sent + [s];
    }

    // The next line that is neither blank nor noise, `skipped` lines on; None at the end of the output.
    method Recv() returns (line: Option<Line>, ghost skipped: nat)
      modifies this`incoming
      ensures skipped <= |old(incoming)|
      ensures forall i :: 0 <= i < skipped ==> old(incoming)[i].Blank? || old(incoming)[i].NotJson?
      ensures match line
              case None => skipped == |old(incoming)| && incoming == []
              case Some(l) => skipped < |old(incoming)| && l == old(incoming)[skipped] && !l.Blank? && !l.NotJson? &&
                              incoming == Left(l) + old(incoming)[skipped + 1..]
    {
      skipped := 0;
      while incoming != []
        invariant skipped <= |old(incoming)| && incoming == old(incoming)[skipped..]
        invariant forall i :: 0 <= i < skipped ==> Noise(old(incoming)[i])
        decreases |incoming|
      {
        var head := incoming[0];
        incoming := Left(head) + incoming[1..];
        if !Noise(head) {
          return Some(head), skipped;
        }
        skipped := skipped + 1;
      }
      line := None;
    }

    method HandleServerRequest(m: Message)
      requires m.name.Some?
      modifies this`sent
      ensures sent == old(sent) + RepliesTo(root, m)
    {
      var name := m.name.value;
      if m.id.None? || m.id.value == NullId { return; }
      if name == "ping" {
        Send(Pong(m.id.value));
        return;
      }
      if name == "roots/list" {
        Send(Roots(m.id.value, root.uri, root.name));
        return;
      }
      Send(Unsupported(m.id.value, METHOD_NOT_FOUND, name));
    }

    method TakeAnswer(m: Message) returns (outcome: Outcome)
      ensures outcome == Answer(m)
    {
      if m.error.Some? { return RpcError(ErrorDetail(m.error.value)); }
      match m.result
      case NoResult => return Returned("{}");
      case ObjectResult(json) => return Returned(json);
      case OtherResult => return BadResult;
    }

    method Request(name: string, params: string) returns (outcome: Outcome)
      modifies this
      ensures requestId == old(requestId) + 1
      ensures outcome == WaitOutcome(old(incoming), requestId)
      ensures incoming == WaitRest(old(incoming), requestId)
      ensures sent == old(sent) + [Call(requestId, name, params)]
                      + Replies(root, old(incoming)[..WaitLength(old(incoming), requestId)])
    {
      requestId := requestId + 1;
      Send(Call(requestId, name, params));
      WaitIs(root, incoming, requestId);
      outcome := AwaitAnswer(requestId);
    }

    // The loop of _request.
    method AwaitAnswer(reqId: nat) returns (outcome: Outcome)
      modifies this`incoming, this`sent
      ensures var c := Wait(root, old(incoming), reqId);
        outcome == c.outcome && incoming == c.left && sent == old(sent) + c.replies
    {
      ghost var all, done := Wait(root, incoming, reqId), [];   // `done` are the replies sent so far
      assert all == After(done, all) && sent + done == sent;
      while true
        invariant sent == old(sent) + done && all == After(done, Wait(root, incoming, reqId))
        decreases |incoming|
      {
        ghost var before := incoming;
        var line, skipped := Recv();
        WaitSkips(root, before, reqId, skipped);
        if line.None? { return ClosedEarly; }
        WaitTakes(root, before[skipped..], reqId);
        if line.value.Unreadable? { return Uncaught(line.value.why); }
        if line.value.NotObject? { return BadMessage; }
        assert incoming == before[skipped..][1..];
        var m := line.value.m;
        if m.name.Some? {
          HandleServerRequest(m);
          AfterBoth(old(sent), done, RepliesTo(root, m), Wait(root, incoming, reqId));
          done := done + RepliesTo(root, m);
          continue;
        }
        if m.id.None? || !m.id.value.Is(reqId) { continue; }
        outcome := TakeAnswer(m);
        return;
      }
    }
  }

  // A request's wait: how it ends, what is left to read, and the replies sent on the way.
  datatype Course = Course(outcome: Outcome, left: seq<Line>, replies: seq<Sent>)

  function After(replies: seq<Sent>, c: Course): Course {
    c.(replies := replies + c.replies)
  }

  function Wait(root: Root, lines: seq<Line>, reqId: int): Course {
    if lines == [] then Course(ClosedEarly, [], [])
    else if Ends(lines[0], reqId) then Course(Ending(lines[0], reqId), Left(lines[0]) + lines[1..], [])
    else After(if lines[0].Object? then RepliesTo(root, lines[0].m) else [], Wait(root, lines[1..], reqId))
  }

  lemma AfterBoth(base: seq<Sent>, a: seq<Sent>, b: seq<Sent>, c: Course)
    ensures base + a + b == base + (a + b)
    ensures After(a, After(b, c)) == After(a + b, c)
  {
    assert a + (b + c.replies) == a + b + c.replies;
  }

  lemma {:induction false} WaitSkips(root: Root, lines: seq<Line>, reqId: int, skipped: nat)
    requires skipped <= |lines| && forall i :: 0 <= i < skipped ==> Noise(lines[i])
    ensures Wait(root, lines, reqId) == Wait(root, lines[skipped..], reqId)
  {
    if skipped > 0 {
      WaitSkips(root, lines[1..], reqId, skipped - 1);
      assert lines[1..][skipped - 1..] == lines[skipped..];
      var rest := Wait(root, lines[1..], reqId);
      assert [] + rest.replies == rest.replies;
    }
  }

  // A line that does not end the wait: a server request draws its replies, any other line draws none.
  lemma WaitTakes(root: Root, lines: seq<Line>, reqId: int)
    ensures lines != [] && lines[0].Object? && !Ends(lines[0], reqId) ==>
              Wait(root, lines, reqId) ==
                if lines[0].m.name.Some? then After(RepliesTo(root, lines[0].m), Wait(root, lines[1..], reqId))
                else Wait(root, lines[1..], reqId)
  {
    if lines != [] {
      var rest := Wait(root, lines[1..], reqId);
      assert [] + rest.replies == rest.replies;
    }
  }

  // The course of a wait, told from the lines it consumes.
  lemma {:induction false} WaitIs(root: Root, lines: seq<Line>, reqId: int)
    ensures Wait(root, lines, reqId) ==
              Course(WaitOutcome(lines, reqId), WaitRest(lines, reqId), Replies(root, lines[..WaitLength(lines, reqId)]))
  {
    if lines != [] {
      var n := WaitLength(lines, reqId);
      if Ends(lines[0], reqId) {
        assert lines[..1][1..] == [];
      } else {
        WaitIs(root, lines[1..], reqId);
        assert lines[..n][1..] == lines[1..][..n - 1] && lines[n..] == lines[1..][n - 1..];
      }
    }
  }

  // The number of lines a request consumes, and how it ends.
  function WaitLength(lines: seq<Line>, reqId: int): (n: nat)
    ensures n <= |lines|
  {
    if lines == [] then 0 else if Ends(lines[0], reqId) then 1 else 1 + WaitLength(lines[1..], reqId)
  }

  // What is left to read: the lines after those, and what stays of the last of them.
  function WaitRest(lines: seq<Line>, reqId: int): seq<Line> {
    var n := WaitLength(lines, reqId);
    (if n == 0 then [] else Left(lines[n - 1])) + lines[n..]
  }

  function WaitOutcome(lines: seq<Line>, reqId: int): Outcome {
    if lines == [] then ClosedEarly
    else if Ends(lines[0], reqId) then Ending(lines[0], reqId) else WaitOutcome(lines[1..], reqId)
  }

  // A request consumes exactly the lines through the first one that ends the wait.
  lemma {:induction false} WaitEnds(lines: seq<Line>, reqId: int, k: nat)
    requires k <= |lines| && forall i :: 0 <= i < k ==> !Ends(lines[i], reqId)
    ensures k == |lines| ==> WaitLength(lines, reqId) == k && WaitOutcome(lines, reqId) == ClosedEarly
    ensures k < |lines| && Ends(lines[k], reqId) ==>
              WaitLength(lines, reqId) == k + 1 && WaitOutcome(lines, reqId) == Ending(lines[k], reqId)
    decreases k
  {
    if k > 0 {
      WaitEnds(lines[1..], reqId, k - 1);
    }
  }

  // ---- What the loop guarantees on every input ----

  // A request is decided by an answer to its own id if and only if one arrives before any line that cannot be read or is
  // JSON but not an object. (The code skips lines that are not JSON, but not those two kinds.)
  lemma {:induction false} DecidedByOwnAnswer(lines: seq<Line>, reqId: int)
    ensures var o := WaitOutcome(lines, reqId);
      (o.Returned? || o.RpcError? || o.BadResult?) <==>
      exists k :: 0 <= k < |lines| && lines[k].Object? && lines[k].m.Answers(reqId) &&
        forall i :: 0 <= i < k ==> !lines[i].Unreadable? && !lines[i].NotObject?
  {
    var k := FirstEnding(lines, reqId);
    WaitEnds(lines, reqId, k);
    if k < |lines| {
      if j :| 0 <= j < |lines| && lines[j].Object? && lines[j].m.Answers(reqId) && forall i :: 0 <= i < j ==> !Poison(lines[i]) {
        assert Ends(lines[j], reqId);
        assert !Poison(lines[k]);
      }
    }
  }

  ghost function FirstEnding(lines: seq<Line>, reqId: int): (k: nat)
    ensures k <= |lines| && (forall i :: 0 <= i < k ==> !Ends(lines[i], reqId)) && (k < |lines| ==> Ends(lines[k], reqId))
  {
    if lines == [] || Ends(lines[0], reqId) then 0 else 1 + FirstEnding(lines[1..], reqId)
  }

  // A line answers at most one request, so an answer that comes late is never taken for the answer to a later one.
  lemma {:induction false} OneAnswer(m: Message, a: int, b: int)
    requires m.Answers(a) && m.Answers(b)
    ensures a == b
  {
    if m.id.value.FloatId? {
      assert (a as real).Floor == a && (b as real).Floor == b;
    }
  }

  // The ids that server requests carry among the lines, in order.
  function AskedIds(lines: seq<Line>): seq<Id> {
    if lines == [] then [] else
      (if lines[0].Object? && lines[0].m.Asks().Some? then [lines[0].m.Asks().value] else []) + AskedIds(lines[1..])
  }

  // What an id must be to answer a request: its number, as an integer, a float or, for 0 and 1, a truth value.
  lemma {:induction false} AnswersIff(m: Message, reqId: int)
    ensures m.Answers(reqId) <==>
      m.name == None && m.id.Some? && m.id.value in {IntId(reqId), FloatId(reqId as real), BoolId(reqId == 1)} &&
      (m.id.value.BoolId? ==> reqId in {0, 1})
  {
  }

  // How the first line that is neither skipped nor answered to ends a request.
  lemma {:induction false} OutcomeTells(lines: seq<Line>, reqId: int, k: nat)
    requires k < |lines| && (lines[k].Unreadable? || lines[k].NotObject? || (lines[k].Object? && lines[k].m.Answers(reqId)))
    requires forall i :: 0 <= i < k ==>
      !lines[i].Unreadable? && !lines[i].NotObject? && (lines[i].Object? ==> !lines[i].m.Answers(reqId))
    ensures WaitOutcome(lines, reqId) ==
      match lines[k]
      case Unreadable(why, _) => Uncaught(why)
      case NotObject => BadMessage
      case Object(Message(_, _, Some(ErrorObject(text, dump)), _)) => RpcError(if text != "" then text else dump)
      case Object(Message(_, _, Some(OtherError(text)), _)) => RpcError(text)
      case Object(Message(_, _, None, NoResult)) => Returned("{}")
      case Object(Message(_, _, None, ObjectResult(json))) => Returned(json)
      case Object(Message(_, _, None, OtherResult)) => BadResult
      case _ => ClosedEarly
    ensures WaitRest(lines, reqId) ==
      match lines[k]
      case Unreadable(TooLong, left) => left + lines[k + 1..]
      case _ => lines[k + 1..]
  {
    WaitEnds(lines, reqId, k);
    assert [] + lines[k + 1..] == lines[k + 1..];
  }

  // What a line is replied to with: a ping and a request for the roots are answered, any other server request with an id
  // is refused, and nothing else is replied to.
  lemma {:induction false} RepliesTell(root: Root, m: Message)
    ensures RepliesTo(root, m) ==
      match m
      case Message(None, _, _, _) => []
      case Message(_, None, _, _) => []
      case Message(_, Some(NullId), _, _) => []
      case Message(Some(name), Some(id), _, _) =>
        if name == "ping" then [Pong(id)]
        else if name == "roots/list" then [Roots(id, root.uri, root.name)]
        else [Unsupported(id, -32601, name)]
  {
  }

  // The replies to lines are those to each of them, in order.
  lemma {:induction false} RepliesJoin(root: Root, a: seq<Line>, b: seq<Line>)
    ensures Replies(root, a + b) == Replies(root, a) + Replies(root, b)
  {
    if a == [] {
      assert a + b == b;
    } else {
      RepliesJoin(root, a[1..], b);
      assert (a + b)[1..] == a[1..] + b;
      var first := if a[0].Object? then RepliesTo(root, a[0].m) else [];
      Assoc(first, Replies(root, a[1..]), Replies(root, b));
    }
  }

  lemma RepliesOne(root: Root, line: Line)
    ensures Replies(root, [line]) == if line.Object? then RepliesTo(root, line.m) else []
  {
    assert [line][1..] == [];
  }

  // Every server request with an id gets exactly one reply with that id, in the order of the requests; notifications
  // and everything else get none.
  lemma {:induction false} OneReplyEach(root: Root, lines: seq<Line>)
    ensures var replies := Replies(root, lines);
      |replies| == |AskedIds(lines)| && forall i :: 0 <= i < |replies| ==> replies[i].ReplyId() == Some(AskedIds(lines)[i])
  {
    if lines != [] {
      OneReplyEach(root, lines[1..]);
    }
  }
}
