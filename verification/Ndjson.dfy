// Newline-delimited JSON (shared/ndjson.py): one frame per line over a byte stream.
module Ndjson {
  import opened Common
  import opened Protocol

  const NEWLINE: byte := 10

  // The limit that every stream of the RPC transport is opened with (RPC_STREAM_LIMIT).
  const STREAM_LIMIT: nat := 10 * 1024 * 1024

  // What json.dumps and json.loads do to frames. `Faithful` is what is assumed of them.
  datatype Json = Json(dumps: Frame -> seq<byte>, loads: seq<byte> -> Option<Frame>) {
    ghost predicate Faithful() {
      forall f {:trigger dumps(f)} :: NEWLINE !in dumps(f) && !Blank(dumps(f)) && loads(dumps(f) + [NEWLINE]) == Some(f)
    }
  }

  predicate IsSpace(b: byte) { b == 32 || 9 <= b <= 13 }

  // `not line.strip()`
  predicate Blank(line: seq<byte>) {
    forall i :: 0 <= i < |line| ==> IsSpace(line[i])
  }

  function EncodeFrame(json: Json, f: Frame): seq<byte> {
    json.dumps(f) + [NEWLINE]
  }

  // A frame that the other end can read.
  predicate Fits(json: Json, f: Frame) { |json.dumps(f)| <= STREAM_LIMIT }

  ghost predicate AllFit(json: Json, fs: seq<Frame>) {
    forall i :: 0 <= i < |fs| ==> Fits(json, fs[i])
  }

  function EncodeAll(json: Json, fs: seq<Frame>): seq<byte> {
    if fs == [] then [] else EncodeFrame(json, fs[0]) + EncodeAll(json, fs[1..])
  }

  // StreamReader.readline once everything has arrived: through the first newline, or to the end of the stream.
  function NextLine(s: seq<byte>): (line: seq<byte>)
    ensures line <= s && (s != [] ==> line != [])
  {
    if s == [] then [] else if s[0] == NEWLINE then [NEWLINE] else
      assert s == [s[0]] + s[1..];
      [s[0]] + NextLine(s[1..])
  }

  // readline raises ValueError on a line that is longer than the limit, not counting its newline.
  predicate TooLong(line: seq<byte>) {
    |line| > STREAM_LIMIT + if line != [] && line[|line| - 1] == NEWLINE then 1 else 0
  }

  // What is left of a stream whose first line is too long: readline has dropped the line, or as much of it, above the
  // limit, as had arrived.
  ghost predicate Dropped(s: seq<byte>, left: seq<byte>) {
    exists cut :: STREAM_LIMIT < cut <= |NextLine(s)| && left == s[cut..]
  }

  lemma {:induction false} NextLineStops(body: seq<byte>, rest: seq<byte>)
    requires NEWLINE !in body
    ensures NextLine(body + [NEWLINE] + rest) == body + [NEWLINE]
  {
    var s := body + [NEWLINE] + rest;
    if body == [] {
      assert s[0] == NEWLINE;
    } else {
      NextLineStops(body[1..], rest);
      assert s[1..] == body[1..] + [NEWLINE] + rest;
      assert s[0] == body[0] && body == [body[0]] + body[1..];
    }
  }

  // The first line of a stream of frames is the first frame, and what follows it is the stream of the others.
  lemma {:induction false} FirstFrame(json: Json, fs: seq<Frame>)
    requires json.Faithful() && fs != []
    ensures var s := EncodeAll(json, fs); var line := NextLine(s);
      line == EncodeFrame(json, fs[0]) && json.loads(line) == Some(fs[0]) && !Blank(line) &&
      (TooLong(line) <==> !Fits(json, fs[0])) && s[|line|..] == EncodeAll(json, fs[1..])
  {
    var body, rest := json.dumps(fs[0]), EncodeAll(json, fs[1..]);
    NextLineStops(body, rest);
    var i :| 0 <= i < |body| && !IsSpace(body[i]);
    assert (body + [NEWLINE])[i] == body[i];
  }

  lemma {:induction false} EncodeAllAppend(json: Json, a: seq<Frame>, b: seq<Frame>)
    ensures EncodeAll(json, a + b) == EncodeAll(json, a) + EncodeAll(json, b)
  {
    if a == [] {
      assert a + b == b;
    } else {
      EncodeAllAppend(json, a[1..], b);
      assert (a + b)[0] == a[0] && (a + b)[1..] == a[1..] + b;
      var x, y, z := EncodeFrame(json, a[0]), EncodeAll(json, a[1..]), EncodeAll(json, b);
      assert x + (y + z) == x + y + z;
    }
  }

  // The frames read from a stream until its end or until a line that is too long or not JSON; blank lines are skipped.
  function FramesOf(json: Json, s: seq<byte>): (seq<Frame>, bool)
    decreases |s|
  {
    if s == [] then ([], true) else
      var line := NextLine(s);
      var rest := FramesOf(json, s[|line|..]);
      if TooLong(line) then ([], false) else if Blank(line) then rest else
        match json.loads(line)
        case None => ([], false)
        case Some(f) => ([f] + rest.0, rest.1)
  }

  method ReadFrames(json: Json, s: seq<byte>) returns (frames: seq<Frame>, ok: bool)
    ensures (frames, ok) == FramesOf(json, s)
  {
    frames := [];
    var data := s;
    ghost var left := FramesOf(json, s);   // what is still to be read
    assert frames + left.0 == left.0;
    while true
      invariant left == FramesOf(json, data) && FramesOf(json, s) == (frames + left.0, left.1)
      decreases |data|
    {
      assert left.0 == [] ==> frames + left.0 == frames;
      var line := NextLine(data);
      if line == [] { break; }
      if TooLong(line) { return frames, false; }
      data := data[|line|..];
      if Blank(line) {
        left := FramesOf(json, data);
        continue;
      }
      match json.loads(line) {
        case None => return frames, false;
        case Some(f) =>
          left := FramesOf(json, data);
          assert frames + ([f] + left.0) == frames + [f] + left.0;
          frames := frames + [f];
      }
    }
    ok := true;
  }

  // A line of a stream that can be read: a frame, or blank space.
  datatype Piece = FrameLine(f: Frame) | BlankLine(space: seq<byte>)

  predicate Proper(json: Json, p: Piece) {
    match p
    case FrameLine(f) => |json.dumps(f)| <= 10 * 1024 * 1024
    case BlankLine(space) => Blank(space) && NEWLINE !in space && |space| <= 10 * 1024 * 1024
  }

  function BodyOf(json: Json, p: Piece): seq<byte> {
    match p
    case FrameLine(f) => json.dumps(f)
    case BlankLine(space) => space
  }

  function EncodePieces(json: Json, ps: seq<Piece>): seq<byte> {
    if ps == [] then [] else BodyOf(json, ps[0]) + [NEWLINE] + EncodePieces(json, ps[1..])
  }

  function FramesIn(ps: seq<Piece>): seq<Frame> {
    if ps == [] then [] else (if ps[0].FrameLine? then [ps[0].f] else []) + FramesIn(ps[1..])
  }

  lemma FirstPiece(json: Json, ps: seq<Piece>, tail: seq<byte>)
    requires json.Faithful() && ps != [] && Proper(json, ps[0])
    ensures var s := EncodePieces(json, ps) + tail; var line := NextLine(s);
      && s != [] && !TooLong(line) && s[|line|..] == EncodePieces(json, ps[1..]) + tail
      && (if ps[0].BlankLine? then Blank(line) else !Blank(line) && json.loads(line) == Some(ps[0].f))
  {
    var body, rest := BodyOf(json, ps[0]), EncodePieces(json, ps[1..]) + tail;
    NextLineStops(body, rest);
    assert EncodePieces(json, ps) + tail == body + [NEWLINE] + rest;
    if ps[0].FrameLine? {
      var i :| 0 <= i < |body| && !IsSpace(body[i]);
      assert (body + [NEWLINE])[i] == body[i];
    }
  }

  lemma ReadPiece(json: Json, ps: seq<Piece>, tail: seq<byte>)
    requires json.Faithful() && ps != [] && Proper(json, ps[0])
    ensures var rest := FramesOf(json, EncodePieces(json, ps[1..]) + tail);
      FramesOf(json, EncodePieces(json, ps) + tail) == if ps[0].BlankLine? then rest else ([ps[0].f] + rest.0, rest.1)
  {
    FirstPiece(json, ps, tail);
  }

  // Reading gives the frames of a stream in order and passes over its blank lines, up to whatever follows.
  lemma {:induction false} ReadsFrames(json: Json, ps: seq<Piece>, tail: seq<byte>)
    requires json.Faithful() && forall i :: 0 <= i < |ps| ==> Proper(json, ps[i])
    ensures FramesOf(json, EncodePieces(json, ps) + tail) == (FramesIn(ps) + FramesOf(json, tail).0, FramesOf(json, tail).1)
    decreases |ps|
  {
    var rest := FramesOf(json, tail);
    if ps == [] {
      assert EncodePieces(json, ps) + tail == tail && FramesIn(ps) + rest.0 == rest.0;
    } else {
      ReadPiece(json, ps, tail);
      ReadsFrames(json, ps[1..], tail);
      var first := if ps[0].FrameLine? then [ps[0].f] else [];
      Assoc(first, FramesIn(ps[1..]), rest.0);
      assert [] + (FramesIn(ps[1..]) + rest.0) == FramesIn(ps[1..]) + rest.0;
    }
  }

  // A line that is too long, or neither blank nor JSON, ends the reading with what was read before it.
  lemma BadLineStops(json: Json, body: seq<byte>, rest: seq<byte>)
    requires NEWLINE !in body && (|body| > 10 * 1024 * 1024 || (!Blank(body) && json.loads(body + [NEWLINE]) == None))
    ensures FramesOf(json, body + [NEWLINE] + rest) == ([], false)
  {
    NextLineStops(body, rest);
    if !Blank(body) {
      var i :| 0 <= i < |body| && !IsSpace(body[i]);
      assert (body + [NEWLINE])[i] == body[i];
    }
  }

  // Framing loses nothing: reading back what was written gives the frames, in order, if and only if each of them is
  // within the limit.
  lemma {:induction false} FramingRoundTrip(json: Json, fs: seq<Frame>)
    requires json.Faithful()
    ensures FramesOf(json, EncodeAll(json, fs)) == (fs, true) <==> AllFit(json, fs)
  {
    if fs != [] {
      FirstFrame(json, fs);
      FramingRoundTrip(json, fs[1..]);
      assert fs == [fs[0]] + fs[1..];
      assert AllFit(json, fs) <==> Fits(json, fs[0]) && AllFit(json, fs[1..]);
      var rest := FramesOf(json, EncodeAll(json, fs[1..]));
      assert ([fs[0]] + rest.0)[1..] == rest.0;
    }
  }
}
