// Turning messages into tasks (shared/codex_session_manager.py, capture_message_task): a message is noted on the session's
// latest open task if that was updated in the last 900 seconds, and otherwise becomes a new task.
module Capture {
  import opened Common
  import opened Text
  import opened Tasks

  const WINDOW: real := 900.0

  // The text with every run of whitespace made one space.
  function Body(text: string): string { Join(" ", Words("", Strip(text))) }

  predicate Skips(text: string) { Body(text) == "" || Body(text)[0] == '/' }

  function Title(body: string): string {
    var compact := Join(" ", Words("", body));
    if |compact| <= 72 then compact else RStrip(compact[..69]) + "..."
  }

  // `int(t)`
  function Seconds(t: real): string {
    if t.Floor >= 0 then Decimal(t.Floor) else
      var n := (-t).Floor;
      if n > 0 then "-" + Decimal(n) else Decimal(0)
  }

  // A message as it comes in: the id a new task would get, and the three readings of the clock taken on the way (for the
  // reference, for the comparison, and for the timestamps written).
  datatype Message = Message(
    key: string, text: string, channel: string, principal: string, freshId: string, t1: real, t2: real, t3: real)

  function Ref(m: Message): string {
    "message:" + m.channel + ":" + m.principal + ":" + Seconds(m.t1)
  }

  function NoteOf(m: Message): string { m.channel + ":" + m.principal + ": " + Body(m.text) }

  function NewTask(m: Message): Task {
    Task(m.freshId, Title(Body(m.text)), "Initial request:\n" + Body(m.text), "open", "codex", m.key, [Ref(m)], m.t3, m.t3)
  }

  datatype Verdict = Skipped | NotedOn(n: nat) | Created

  function Judge(index: seq<Task>, m: Message): (v: Verdict)
    ensures v.NotedOn? ==> v.n < |index|
  {
    if Skips(m.text) then Skipped else
      match Latest(index, m.key)
      case None => Created
      case Some(n) => if m.t2 - index[n].updatedAt <= WINDOW then NotedOn(n) else Created
  }

  function Captured(index: seq<Task>, m: Message): seq<Task> {
    match Judge(index, m)
    case Skipped => index
    case NotedOn(n) => index[n := Noted(index[n], NoteOf(m), Ref(m), m.t3)]
    case Created => index + [NewTask(m)]
  }

  // ---- What becomes of a message ----

  // It is skipped if it has no words or its first one starts with a slash; it is noted if the session's latest open task was
  // updated within 900 seconds; it becomes a task otherwise.
  lemma {:induction false} JudgeTells(index: seq<Task>, m: Message)
    ensures Judge(index, m) ==
      var words := Words("", Strip(m.text));
      if words == [] || "/" <= words[0] then Skipped else
        match Latest(index, m.key)
        case None => Created
        case Some(n) => if m.t2 - index[n].updatedAt <= 900.0 then NotedOn(n) else Created
  {
    var words := Words("", Strip(m.text));
    WordsAreWords("", Strip(m.text));
    if words != [] {
      assert words[0] != "" && Body(m.text) != "" && Body(m.text)[0] == words[0][0];
    }
  }

  // The task made of a message is open and the agent's, and tells the message's words; its title is all of them if they
  // take no more than 72 characters, and else begins as they do.
  lemma {:induction false} NewTaskTells(index: seq<Task>, m: Message)
    requires Judge(index, m) == Created
    ensures var words := Join(" ", Words("", Strip(m.text))); var t := NewTask(m);
      && Captured(index, m) == index + [t]
      && t == Task(m.freshId, t.title, "Initial request:\n" + words, "open", "codex", m.key,
                   ["message:" + m.channel + ":" + m.principal + ":" + Seconds(m.t1)], m.t3, m.t3)
      && t.title == if |words| <= 72 then words else RStrip(words[..69]) + "..."
  {
    WordsAreWords("", Strip(m.text));
    WordsOfJoin(Words("", Strip(m.text)));
  }

  lemma {:induction false} NoteTells(m: Message)
    ensures NoteOf(m) == m.channel + ":" + m.principal + ": " + Join(" ", Words("", Strip(m.text)))
    ensures Ref(m) == "message:" + m.channel + ":" + m.principal + ":" + Seconds(m.t1)
    ensures m.t1 >= 0.0 ==> Seconds(m.t1) != "" && AllDigits(Seconds(m.t1)) && Number(Seconds(m.t1)) == m.t1.Floor
  {
    if m.t1 >= 0.0 { NumberOfDecimal(m.t1.Floor); }
  }

  // ---- Runs of store operations under a clock that never goes back ----

  datatype Op =
    | Receive(m: Message)
    | Create(t: Task)                              // by anyone else; updatedAt is the time
    | Update(id: string, c: Changes, now: real)
    | Note(id: string, note: string, ref: string, now: real)

  function Changed(index: seq<Task>, id: string, f: Task -> Task): seq<Task> {
    var n := IndexOf(index, id);
    if n < |index| then index[n := f(index[n])] else index
  }

  function Do(index: seq<Task>, op: Op): seq<Task> {
    match op
    case Receive(m) => Captured(index, m)
    case Create(t) => index + [t]
    case Update(id, c, now) => Changed(index, id, (t: Task) => Updated(t, c, now))
    case Note(id, note, ref, now) => Changed(index, id, (t: Task) => Noted(t, note, ref, now))
  }

  function Started(op: Op): real {
    match op
    case Receive(m) => m.t1
    case Create(t) => t.updatedAt
    case Update(_, _, now) => now
    case Note(_, _, _, now) => now
  }

  function Ended(op: Op): real {
    if op.Receive? then op.m.t3 else Started(op)
  }

  // The readings from `start` on never decrease, and end by `end`.
  ghost predicate Clocked(run: seq<Op>, start: real, end: real)
    decreases |run|
  {
    if run == [] then start <= end else
      start <= Started(run[0]) && (run[0].Receive? ==> run[0].m.t1 <= run[0].m.t2 <= run[0].m.t3) &&
      Clocked(run[1..], Ended(run[0]), end)
  }

  // No update closes a task.
  ghost predicate LeavesOpen(run: seq<Op>) {
    forall i :: 0 <= i < |run| ==> run[i].Update? ==> run[i].c.status.None? || IsOpen(run[i].c.status.value)
  }

  function CountCreated(index: seq<Task>, run: seq<Op>, key: string): nat
    decreases |run|
  {
    if run == [] then 0 else
      (if run[0].Receive? && run[0].m.key == key && Judge(index, run[0].m) == Created then 1 else 0) +
      CountCreated(Do(index, run[0]), run[1..], key)
  }

  // The session has an open task updated no earlier than `since`.
  ghost predicate OpenSince(index: seq<Task>, key: string, since: real) {
    exists i :: 0 <= i < |index| && Candidate(index[i], key) && index[i].updatedAt >= since
  }

  lemma OpenSinceStep(index: seq<Task>, op: Op, key: string, since: real)
    requires OpenSince(index, key, since) && since <= Started(op) <= Ended(op) && LeavesOpen([op])
    ensures OpenSince(Do(index, op), key, since)
  {
    var i :| 0 <= i < |index| && Candidate(index[i], key) && index[i].updatedAt >= since;
    var after := Do(index, op);
    assert [op][0] == op;
    assert Candidate(after[i], key) && after[i].updatedAt >= since;
  }

  lemma CreatedIsOpen(index: seq<Task>, m: Message)
    requires Judge(index, m) == Created
    ensures OpenSince(Captured(index, m), m.key, m.t3)
  {
    var after := Captured(index, m);
    assert after[|index|] == NewTask(m) && Candidate(after[|index|], m.key);
  }

  // A session with an open task updated at `since` or later makes no new one within the window.
  lemma CreatedIsLate(index: seq<Task>, m: Message, since: real)
    requires OpenSince(index, m.key, since) && Judge(index, m) == Created
    ensures m.t2 - since > WINDOW
  {
  }

  // With a task open since `since`, the tasks made later are at most one for every 900 seconds.
  lemma {:induction false} CreationsAreSpaced(index: seq<Task>, run: seq<Op>, key: string, since: real, start: real, end: real)
    requires OpenSince(index, key, since) && since <= start && Clocked(run, start, end) && LeavesOpen(run)
    ensures CountCreated(index, run, key) as real * WINDOW <= end - since
    decreases |run|
  {
    if run == [] {
    } else {
      var op, rest := run[0], run[1..];
      assert LeavesOpen([op]) by { assert [op][0] == run[0]; }
      assert LeavesOpen(rest);
      if op.Receive? && op.m.key == key && Judge(index, op.m) == Created {
        CreatedIsLate(index, op.m, since);
        CreatedIsOpen(index, op.m);
        CreationsAreSpaced(Do(index, op), rest, key, op.m.t3, op.m.t3, end);
        var n := CountCreated(Do(index, op), rest, key);
        assert (1 + n) as real * WINDOW == WINDOW + n as real * WINDOW;
      } else {
        OpenSinceStep(index, op, key, since);
        CreationsAreSpaced(Do(index, op), rest, key, since, Ended(op), end);
      }
    }
  }

  // The store after the first k operations of a run.
  function Before(index: seq<Task>, run: seq<Op>, k: nat): seq<Task>
    requires k <= |run|
  {
    if k == 0 then index else Do(Before(index, run, k - 1), run[k - 1])
  }

  // The i-th operation of a run makes a task of a message of the session.
  predicate Creates(index: seq<Task>, run: seq<Op>, i: nat, key: string)
    requires i < |run|
  {
    run[i].Receive? && run[i].m.key == key && Judge(Before(index, run, i), run[i].m) == Created
  }

  lemma {:induction false} ClockedAt(run: seq<Op>, start: real, end: real, i: nat)
    requires Clocked(run, start, end) && i < |run|
    ensures start <= Started(run[i]) <= Ended(run[i])
    decreases |run|
  {
    if i > 0 {
      ClockedAt(run[1..], Ended(run[0]), end, i - 1);
    }
  }

  lemma {:induction false} ClockedInOrder(run: seq<Op>, start: real, end: real, i: nat, j: nat)
    requires Clocked(run, start, end) && i < j < |run|
    ensures Ended(run[i]) <= Started(run[j])
    decreases |run|
  {
    if i == 0 {
      ClockedAt(run[1..], Ended(run[0]), end, j - 1);
    } else {
      ClockedInOrder(run[1..], Ended(run[0]), end, i - 1, j - 1);
    }
  }

  lemma {:induction false} StaysOpen(index: seq<Task>, run: seq<Op>, key: string, start: real, end: real, i: nat, k: nat)
    requires Clocked(run, start, end) && LeavesOpen(run) && i < k <= |run| && Creates(index, run, i, key)
    ensures OpenSince(Before(index, run, k), key, run[i].m.t3)
    decreases k
  {
    if k == i + 1 {
      CreatedIsOpen(Before(index, run, i), run[i].m);
    } else {
      StaysOpen(index, run, key, start, end, i, k - 1);
      ClockedInOrder(run, start, end, i, k - 1);
      ClockedAt(run, start, end, k - 1);
      assert LeavesOpen([run[k - 1]]);
      OpenSinceStep(Before(index, run, k - 1), run[k - 1], key, run[i].m.t3);
    }
  }

  // Any two tasks made of one session's messages lie more than 900 seconds apart: from when the first was written to when
  // the second was judged.
  lemma {:induction false} CreationsApart(index: seq<Task>, run: seq<Op>, key: string, start: real, end: real, i: nat, j: nat)
    requires Clocked(run, start, end) && LeavesOpen(run)
    requires i < j < |run| && Creates(index, run, i, key) && Creates(index, run, j, key)
    ensures run[j].m.t2 - run[i].m.t3 > 900.0
  {
    StaysOpen(index, run, key, start, end, i, j);
    CreatedIsLate(Before(index, run, j), run[j].m, run[i].m.t3);
  }

  lemma {:induction false} CreationsAfterFirst(index: seq<Task>, run: seq<Op>, key: string, start: real, end: real)
    requires Clocked(run, start, end) && LeavesOpen(run)
    ensures start <= end
    ensures CountCreated(index, run, key) as real * WINDOW <= end - start + WINDOW
    decreases |run|
  {
    if run != [] {
      var op, rest := run[0], run[1..];
      assert LeavesOpen(rest);
      if op.Receive? && op.m.key == key && Judge(index, op.m) == Created {
        CreatedIsOpen(index, op.m);
        CreationsAreSpaced(Do(index, op), rest, key, op.m.t3, op.m.t3, end);
        var n := CountCreated(Do(index, op), rest, key);
        assert (1 + n) as real * WINDOW == WINDOW + n as real * WINDOW;
      } else {
        CreationsAfterFirst(Do(index, op), rest, key, Ended(op), end);
      }
    }
  }

  // Capture rate: whatever else happens in the store, as long as tasks stay open, the messages of one session within T
  // seconds make at most 1 + floor(T / 900) tasks.
  lemma CaptureRate(index: seq<Task>, run: seq<Op>, key: string, start: real, end: real)
    requires Clocked(run, start, end) && LeavesOpen(run)
    ensures CountCreated(index, run, key) <= 1 + ((end - start) / 900.0).Floor
  {
    CreationsAfterFirst(index, run, key, start, end);
    var n: int := CountCreated(index, run, key);
    assert (n - 1) as real <= (end - start) / WINDOW;
  }

  predicate EndsWith(s: string, end: string) {
    |end| <= |s| && s[|s| - |end|..] == end
  }

  // What a note does to the details.
  lemma NotedDetails(t: Task, note: string, ref: string, now: real)
    ensures EndsWith(Noted(t, note, ref, now).details, "- " + Strip(note))
    ensures RStrip(t.details) <= Noted(t, note, ref, now).details
  {
    var details, end := RStrip(t.details), "- " + Strip(note);
    var before := if details != "" then details + "\n\n" else "";
    assert Noted(t, note, ref, now).details == before + end;
  }

  ghost predicate IsNotedOn(index: seq<Task>, m: Message, n: nat)
    requires n < |index|
  {
    var after := Captured(index, m);
    && Candidate(index[n], m.key) && m.t2 - index[n].updatedAt <= 900.0
    && (forall i :: 0 <= i < |index| && Candidate(index[i], m.key) ==> index[i].updatedAt <= index[n].updatedAt)
    && |after| == |index| && (forall i :: 0 <= i < |index| && i != n ==> after[i] == index[i])
    && EndsWith(after[n].details, "- " + Strip(NoteOf(m))) && RStrip(index[n].details) <= after[n].details
    && Ref(m) in after[n].refs && after[n].updatedAt == m.t3 && after[n].status == index[n].status
  }

  // Every other message that is not skipped is noted, within the window, on an open task of its session that no other
  // open task of the session was updated after; nothing else changes.
  lemma OthersAreNoted(index: seq<Task>, m: Message)
    requires !Skips(m.text) && Judge(index, m) != Created
    ensures exists n :: 0 <= n < |index| && IsNotedOn(index, m, n)
  {
    var n := Latest(index, m.key).value;
    NotedDetails(index[n], NoteOf(m), Ref(m), m.t3);
    assert Ref(m)[0] == 'm';
    assert IsNotedOn(index, m, n);
  }
}
