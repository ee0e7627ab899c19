// The RPC transport: the locked client of shared/proc_rpc.py and the serial server loop of shared/service_base.py.
module Rpc {
  import opened Common
  import opened Protocol
  import opened Ndjson

  // ---- Client ----

  // A request as its caller sees it: the event frames in order and the frame that ended it.
  datatype Exchange = Exchange(id: string, events: seq<Frame>, final: Frame)

  datatype Outcome =
    | Replied(exchange: Exchange)
    | UnexpectedId(got: string)     // ProtocolError
    | Closed                        // ServiceCrashedError: end of stream
    | BadJson                       // json.loads raised
    | Overrun                       // readline raised ValueError: the line is over the stream's limit

  // What the waiting client does with one line: keep it as an event, or stop.
  datatype Turn = More(events: seq<Frame>) | Stop(outcome: Outcome)

  function TakeLine(json: Json, id: string, events: seq<Frame>, line: seq<byte>): Turn {
    if line == [] then Stop(Closed)
    else if TooLong(line) then Stop(Overrun)
    else
      match json.loads(line)
      case None => Stop(BadJson)
      case Some(f) =>
        if f.id != id then Stop(UnexpectedId(f.id))
        else if f.Event? then More(events + [f])
        else Stop(Replied(Exchange(id, events, f)))
  }

  // The outcome of waiting on a stream, and the part of the stream left unread, from the line on that was too long if
  // there was one.
  function Await(json: Json, id: string, events: seq<Frame>, s: seq<byte>): (Outcome, seq<byte>)
    decreases |s|
  {
    var line := NextLine(s);
    match TakeLine(json, id, events, line)
    case Stop(outcome) => (outcome, if outcome.Overrun? then s else s[|line|..])
    case More(events') => Await(json, id, events', s[|line|..])
  }

  // What a request leaves in the stream.
  ghost predicate Leaves(awaited: (Outcome, seq<byte>), left: seq<byte>) {
    if awaited.0.Overrun? then Dropped(awaited.1, left) else left == awaited.1
  }

  class ProcClient {
    const json: Json
    var reader: seq<byte>   // all that will arrive before the end of the stream
    var writer: seq<byte>   // all that was written

    constructor (json: Json, reader: seq<byte>)
      ensures this.json == json && this.reader == reader && writer == []
    {
      this.json, this.reader, this.writer := json, reader, [];
    }

    // None when readline raises.
    method ReadLine() returns (line: Option<seq<byte>>)
      modifies this`reader
      ensures var next := NextLine(old(reader));
        if TooLong(next) then line == None && Dropped(old(reader), reader)
        else line == Some(next) && reader == old(reader)[|next|..]
    {
      var next := NextLine(reader);
      if TooLong(next) {
        var cut :| STREAM_LIMIT < cut <= |next|;   // what had arrived of it
        reader := reader[cut..];
        return None;
      }
      reader := reader[|next|..];
      line := Some(next);
    }

    // The plain form: collect events until the final frame, return both.
    method RequestPlain(id: string, op: string, payload: string) returns (outcome: Outcome)
      modifies this
      ensures writer == old(writer) + EncodeFrame(json, Request(id, op, payload))
      ensures outcome == Await(json, id, [], old(reader)).0 && Leaves(Await(json, id, [], old(reader)), reader)
    {
      writer := writer + EncodeFrame(json, Request(id, op, payload));
      var events := [];
      while true
        invariant Await(json, id, events, reader) == Await(json, id, [], old(reader))
        invariant writer == old(writer) + EncodeFrame(json, Request(id, op, payload))
        decreases |reader|
      {
        var read := ReadLine();
        if read.None? { return Overrun; }
        var line := read.value;
        if line == [] { return Closed; }
        match json.loads(line) {
          case None => return BadJson;
          case Some(frame) =>
            if frame.id != id { return UnexpectedId(frame.id); }
            if frame.Event? {
              events := events + [frame];
              continue;
            }
            return Replied(Exchange(id, events, frame));
        }
      }
    }

    // The streaming form: read everything first, then hand out the frames one by one and a completed future.
    method RequestStream(id: string, op: string, payload: string) returns (failure: Option<Outcome>, frames: seq<Frame>, final: Option<Frame>)
      modifies this
      ensures writer == old(writer) + EncodeFrame(json, Request(id, op, payload))
      ensures Leaves(Await(json, id, [], old(reader)), reader)
      ensures match Await(json, id, [], old(reader)).0
              case Replied(x) => failure == None && frames == x.events && final == Some(x.final)
              case bad => failure == Some(bad) && final == None
    {
      writer := writer + EncodeFrame(json, Request(id, op, payload));
      frames, final, failure := [], None, None;
      while true
        invariant Await(json, id, frames, reader) == Await(json, id, [], old(reader))
        invariant writer == old(writer) + EncodeFrame(json, Request(id, op, payload)) && failure == None && final == None
        decreases |reader|
      {
        var read := ReadLine();
        if read.None? { failure := Some(Overrun); return; }
        var line := read.value;
        if line == [] { failure := Some(Closed); return; }
        match json.loads(line) {
          case None => failure := Some(BadJson); return;
          case Some(frame) =>
            if frame.id != id { failure := Some(UnexpectedId(frame.id)); return; }
            if frame.Event? {
              frames := frames + [frame];
              continue;
            }
            final := Some(frame);
            break;
        }
      }
    }
  }

  // ---- Server ----

  // What a handler does with a request: emit events, then return a result or raise. None stands for every result that
  // counts as false.
  datatype Ending = Returned(result: Option<string>) | Raised(message: string, cls: string)
  datatype Script = Script(events: seq<(string, string)>, ending: Ending)

  function OpText(f: Frame): string {
    if f.Request? then f.op else "None"
  }

  function UnknownOp(f: Frame): Frame {
    ErrorResponse(f.id, "unknown op: " + OpText(f), "unknown_op")
  }

  function FinalFrame(id: string, e: Ending): Frame {
    match e
    case Returned(result) => OkResponse(id, result)
    case Raised(message, cls) => ErrorResponse(id, message, cls)
  }

  function EventFrames(id: string, events: seq<(string, string)>): seq<Frame> {
    seq(|events|, i requires 0 <= i < |events| => Event(id, events[i].0, events[i].1))
  }

  // The frames that answer one decoded line.
  function Response(ops: set<string>, f: Frame, script: Script): seq<Frame> {
    if f.Request? && f.op in ops then EventFrames(f.id, script.events) + [FinalFrame(f.id, script.ending)]
    else [UnknownOp(f)]
  }

  // The frames written for a whole stream of requests, `scripts` telling what the handler of the n-th one does. A line
  // that is too long or not JSON ends the connection.
  function Responses(json: Json, ops: set<string>, s: seq<byte>, scripts: nat -> Script, n: nat): seq<Frame>
    decreases |s|
  {
    if s == [] then [] else
      var line := NextLine(s);
      var rest := s[|line|..];
      if TooLong(line) then [] else if Blank(line) then Responses(json, ops, rest, scripts, n) else
        match json.loads(line)
        case None => []
        case Some(f) => Response(ops, f, scripts(n)) + Responses(json, ops, rest, scripts, n + 1)
  }

  // What an answer says: the events as they were emitted, and then the result, or what was raised, under the request's id;
  // an operation that is not known draws one error.
  lemma {:induction false} ResponseTells(ops: set<string>, id: string, op: string, payload: string, events: seq<(string, string)>, ending: Ending)
    ensures var reply := Response(ops, Request(id, op, payload), Script(events, ending));
      if op in ops then
        && |reply| == |events| + 1
        && (forall k :: 0 <= k < |events| ==> reply[k] == Event(id, events[k].0, events[k].1))
        && reply[|events|] == match ending
                              case Returned(Some(r)) => Ok(id, r)
                              case Returned(None) => Ok(id, "{}")
                              case Raised(m, c) => Error(id, m, c, "{}")
      else reply == [Error(id, "unknown op: " + op, "unknown_op", "{}")]
  {
  }

  // The answers to requests, one after the other.
  function AnswersTo(ops: set<string>, fs: seq<Frame>, scripts: nat -> Script, n: nat): seq<Frame>
    decreases |fs|
  {
    if fs == [] then [] else Response(ops, fs[0], scripts(n)) + AnswersTo(ops, fs[1..], scripts, n + 1)
  }

  lemma ServePiece(json: Json, ops: set<string>, ps: seq<Piece>, tail: seq<byte>, scripts: nat -> Script, n: nat)
    requires json.Faithful() && ps != [] && Proper(json, ps[0])
    ensures var rest := EncodePieces(json, ps[1..]) + tail;
      Responses(json, ops, EncodePieces(json, ps) + tail, scripts, n) ==
        if ps[0].BlankLine? then Responses(json, ops, rest, scripts, n)
        else Response(ops, ps[0].f, scripts(n)) + Responses(json, ops, rest, scripts, n + 1)
  {
    FirstPiece(json, ps, tail);
  }

  // The server answers the frames of a stream, and nothing else, in order; whatever follows is served after them.
  lemma {:induction false} ServesInOrder(json: Json, ops: set<string>, ps: seq<Piece>, tail: seq<byte>, scripts: nat -> Script, n: nat, m: nat)
    requires json.Faithful() && (forall i :: 0 <= i < |ps| ==> Proper(json, ps[i])) && m == n + |FramesIn(ps)|
    ensures Responses(json, ops, EncodePieces(json, ps) + tail, scripts, n) ==
              AnswersTo(ops, FramesIn(ps), scripts, n) + Responses(json, ops, tail, scripts, m)
    decreases |ps|
  {
    var later := Responses(json, ops, tail, scripts, m);
    if ps == [] {
      assert EncodePieces(json, ps) + tail == tail && [] + later == later;
    } else {
      FirstOfMany(ops, ps, scripts, n, later);
      ServePiece(json, ops, ps, tail, scripts, n);
      ServesInOrder(json, ops, ps[1..], tail, scripts, if ps[0].BlankLine? then n else n + 1, m);
    }
  }

  lemma FirstOfMany(ops: set<string>, ps: seq<Piece>, scripts: nat -> Script, n: nat, later: seq<Frame>)
    requires ps != []
    ensures if ps[0].BlankLine? then FramesIn(ps) == FramesIn(ps[1..]) else
      && |FramesIn(ps)| == 1 + |FramesIn(ps[1..])|
      && AnswersTo(ops, FramesIn(ps), scripts, n) + later
         == Response(ops, ps[0].f, scripts(n)) + (AnswersTo(ops, FramesIn(ps[1..]), scripts, n + 1) + later)
  {
    if ps[0].FrameLine? {
      AnswerFirst(ops, ps[0].f, FramesIn(ps[1..]), scripts, n);
      Assoc(Response(ops, ps[0].f, scripts(n)), AnswersTo(ops, FramesIn(ps[1..]), scripts, n + 1), later);
    } else {
      assert [] + FramesIn(ps[1..]) == FramesIn(ps[1..]);
    }
  }

  lemma AnswerFirst(ops: set<string>, f: Frame, fs: seq<Frame>, scripts: nat -> Script, n: nat)
    ensures AnswersTo(ops, [f] + fs, scripts, n) == Response(ops, f, scripts(n)) + AnswersTo(ops, fs, scripts, n + 1)
  {
    assert ([f] + fs)[1..] == fs;
  }

  // A line that is too long, or neither blank nor JSON, ends the connection unanswered.
  lemma BadLineHangsUp(json: Json, ops: set<string>, body: seq<byte>, rest: seq<byte>, scripts: nat -> Script, n: nat)
    requires NEWLINE !in body && (|body| > 10 * 1024 * 1024 || (!Blank(body) && json.loads(body + [NEWLINE]) == None))
    ensures Responses(json, ops, body + [NEWLINE] + rest, scripts, n) == []
  {
    NextLineStops(body, rest);
    if !Blank(body) {
      var i :| 0 <= i < |body| && !IsSpace(body[i]);
      assert (body + [NEWLINE])[i] == body[i];
    }
  }

  lemma WriteMore(json: Json, base: seq<byte>, done: seq<Frame>, frames: seq<Frame>, todo: seq<Frame>)
    ensures base + EncodeAll(json, done) + EncodeAll(json, frames) == base + EncodeAll(json, done + frames)
    ensures done + (frames + todo) == (done + frames) + todo
  {
    EncodeAllAppend(json, done, frames);
    var x, y := EncodeAll(json, done), EncodeAll(json, frames);
    assert base + x + y == base + (x + y);
  }

  lemma WriteOne(json: Json, base: seq<byte>, done: seq<Frame>, f: Frame)
    ensures base + EncodeAll(json, done) + EncodeFrame(json, f) == base + EncodeAll(json, done + [f])
  {
    WriteMore(json, base, done, [f], []);
    assert EncodeAll(json, [f]) == EncodeFrame(json, f);
  }

  class NDJSONService {
    const json: Json
    const ops: set<string>
    var sent: seq<byte>

    constructor (json: Json, ops: set<string>)
      ensures this.json == json && this.ops == ops + {"meta", "health"} && sent == []
    {
      this.json, this.ops, this.sent := json, ops + {"meta", "health"}, [];
    }

    method WriteFrame(f: Frame)
      modifies this
      ensures sent == old(sent) + EncodeFrame(json, f)
    {
      sent := sent + EncodeFrame(json, f);
    }

    method DispatchLine(f: Frame, script: Script)
      modifies this
      ensures sent == old(sent) + EncodeAll(json, Response(ops, f, script))
    {
      if !(f.Request? && f.op in ops) {
        WriteFrame(UnknownOp(f));
        return;
      }
      var i := 0;
      ghost var frames := EventFrames(f.id, script.events);
      while i < |script.events|
        invariant 0 <= i <= |script.events| && sent == old(sent) + EncodeAll(json, frames[..i])
      {
        WriteFrame(Event(f.id, script.events[i].0, script.events[i].1));
        WriteOne(json, old(sent), frames[..i], frames[i]);
        assert frames[..i] + [frames[i]] == frames[..i + 1];
        i := i + 1;
      }
      assert frames[..i] == frames;
      WriteOne(json, old(sent), frames, FinalFrame(f.id, script.ending));
      match script.ending {
        case Returned(result) => WriteFrame(OkResponse(f.id, result));
        case Raised(message, cls) => WriteFrame(ErrorResponse(f.id, message, cls));
      }
    }

    method HandleClient(s: seq<byte>, scripts: nat -> Script)
      modifies this
      ensures sent == old(sent) + EncodeAll(json, Responses(json, ops, s, scripts, 0))
    {
      var data, n := s, 0;
      ghost var all := Responses(json, ops, s, scripts, 0);
      ghost var done, todo := [], all;   // the frames written, and those still to be written
      assert done + todo == all;
      while true
        invariant todo == Responses(json, ops, data, scripts, n) && done + todo == all
        invariant sent == old(sent) + EncodeAll(json, done)
        decreases |data|
      {
        assert todo == [] ==> done + todo == done;
        var line := NextLine(data);
        if line == [] { break; }
        if TooLong(line) { break; }
        data := data[|line|..];
        if Blank(line) {
          todo := Responses(json, ops, data, scripts, n);
          continue;
        }
        match json.loads(line) {
          case None => break;
          case Some(f) =>
            ghost var frames := Response(ops, f, scripts(n));
            DispatchLine(f, scripts(n));
            n := n + 1;
            todo := Responses(json, ops, data, scripts, n);
            WriteMore(json, old(sent), done, frames, todo);
            done := done + frames;
        }
      }
    }
  }
}
