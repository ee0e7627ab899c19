// Telegram polling (services/telegram_listener/service.py): each bot's offset against a server that hands out pending
// updates by id.
module Polling {
  import opened Common
  import opened Text

  // What of an update decides whether it is dispatched; `id` is its update_id.
  datatype Update = Update(id: nat, userId: string, chatId: Option<int>, text: string)

  predicate Dispatchable(u: Update) {
    u.userId != "" && u.chatId.Some? && Strip(u.text) != ""
  }

  function NextOffset(offset: nat, updates: seq<Update>): nat {
    if updates == [] then offset else
      Max(NextOffset(offset, updates[..|updates| - 1]), updates[|updates| - 1].id + 1)
  }

  function Dispatches(updates: seq<Update>): seq<Update> {
    if updates == [] then [] else
      Dispatches(updates[..|updates| - 1]) + if Dispatchable(updates[|updates| - 1]) then [updates[|updates| - 1]] else []
  }

  class TelegramListenerService {
    var offsets: map<string, nat>       // in memory, by role
    var saved: map<string, nat>         // in the offsets file
    var dispatched: seq<(string, Update)>
    var posted: seq<(int, string)>      // the sendMessage calls: chat and text

    constructor (saved: map<string, nat>)
      ensures offsets == saved && this.saved == saved && dispatched == [] && posted == []
    {
      this.offsets, this.saved, this.dispatched, this.posted := saved, saved, [], [];
    }

    // The text in slices of MAX_LEN; a post that fails is logged and the next one is made all the same.
    method SendMessage(chat: int, text: string)
      modifies this`posted
      ensures posted == old(posted) + Posts(chat, Chunks(text))
      ensures |posted| == |old(posted)| + |Chunks(text)| && posted[..|old(posted)|] == old(posted)
      ensures forall i :: 0 <= i < |Chunks(text)| ==> posted[|old(posted)| + i] == (chat, Chunks(text)[i])
    {
      var i := 0;
      ghost var done: seq<string>, rest := [], text;
      assert done + Chunks(rest) == Chunks(text);
      while i < |text|
        invariant 0 <= i && rest == text[Least(i, |text|)..]
        invariant done + Chunks(rest) == Chunks(text) && posted == old(posted) + Posts(chat, done)
        decreases |text| - i
      {
        var chunk := text[i..Least(i + MAX_LEN, |text|)];
        assert rest[..Least(MAX_LEN, |rest|)] == chunk;
        assert rest[Least(MAX_LEN, |rest|)..] == text[Least(i + MAX_LEN, |text|)..];
        PostOneMore(old(posted), chat, done, chunk, Chunks(text[Least(i + MAX_LEN, |text|)..]));
        posted := posted + [(chat, chunk)];
        i, done, rest := i + MAX_LEN, done + [chunk], text[Least(i + MAX_LEN, |text|)..];
      }
      assert rest == "" && done + [] == done;
    }

    // The request of a poll carries the role's offset.
    method OffsetOf(role: string) returns (offset: nat)
      ensures offset == if role in offsets then offsets[role] else 0
    {
      offset := if role in offsets then offsets[role] else 0;
    }

    // _poll_bot, from the server's reply on: None is a request that failed.
    method PollBot(role: string, reply: Option<seq<Update>>)
      modifies this`offsets, this`dispatched
      ensures reply.None? ==> offsets == old(offsets) && dispatched == old(dispatched)
      ensures reply.Some? ==>
        && offsets == old(offsets)[role := NextOffset(if role in old(offsets) then old(offsets)[role] else 0, reply.value)]
        && dispatched == old(dispatched) + Tagged(role, Dispatches(reply.value))
      ensures reply.Some? ==>
        && |dispatched| == |old(dispatched)| + |Dispatches(reply.value)|
        && forall i :: 0 <= i < |Dispatches(reply.value)| ==> dispatched[|old(dispatched)| + i] == (role, Dispatches(reply.value)[i])
    {
      if reply.None? { return; }
      var updates := reply.value;
      var offset := OffsetOf(role);
      ghost var start := offset;
      var i := 0;
      while i < |updates|
        invariant 0 <= i <= |updates| && offset == NextOffset(start, updates[..i])
        invariant dispatched == old(dispatched) + Tagged(role, Dispatches(updates[..i]))
        invariant offsets == old(offsets)
      {
        var u := updates[i];
        OneMore(role, old(dispatched), start, updates, i);
        offset := Max(offset, u.id + 1);
        i := i + 1;
        if u.userId == "" || u.chatId.None? || Strip(u.text) == "" { continue; }
        dispatched := dispatched + [(role, u)];
      }
      assert updates[..i] == updates;
      offsets := offsets[role := offset];
    }

    method SaveOffsets()
      modifies this`saved
      ensures saved == offsets
    {
      saved := offsets;
    }
  }

  function Tagged(role: string, updates: seq<Update>): seq<(string, Update)> {
    seq(|updates|, i requires 0 <= i < |updates| => (role, updates[i]))
  }

  // ---- Long texts ----

  const MAX_LEN: nat := 4000

  function Least(a: nat, b: nat): nat { if a <= b then a else b }

  function Chunks(text: string): seq<string> {
    if text == "" then [] else [text[..Least(MAX_LEN, |text|)]] + Chunks(text[Least(MAX_LEN, |text|)..])
  }

  function Posts(chat: int, chunks: seq<string>): seq<(int, string)> {
    seq(|chunks|, i requires 0 <= i < |chunks| => (chat, chunks[i]))
  }

  function Concat(parts: seq<string>): string {
    if parts == [] then "" else parts[0] + Concat(parts[1..])
  }

  lemma PostOneMore(before: seq<(int, string)>, chat: int, done: seq<string>, chunk: string, later: seq<string>)
    ensures before + Posts(chat, done) + [(chat, chunk)] == before + Posts(chat, done + [chunk])
    ensures done + ([chunk] + later) == done + [chunk] + later
  {
  }

  // The slices put together are the text, none is empty or longer than the limit, and all but the last are full.
  lemma {:induction false} ChunksAreTheText(text: string)
    ensures var parts := Chunks(text);
      && Concat(parts) == text
      && (forall i :: 0 <= i < |parts| ==> 1 <= |parts[i]| <= 4000)
      && (forall i :: 0 <= i < |parts| - 1 ==> |parts[i]| == 4000)
    decreases |text|
  {
    if text != "" {
      var k := Least(MAX_LEN, |text|);
      ChunksAreTheText(text[k..]);
      assert Chunks(text)[1..] == Chunks(text[k..]) && text == text[..k] + text[k..];
    }
  }

  // What one more update adds.
  lemma OneMore(role: string, before: seq<(string, Update)>, start: nat, updates: seq<Update>, i: nat)
    requires i < |updates|
    ensures before + Tagged(role, Dispatches(updates[..i + 1]))
         == before + Tagged(role, Dispatches(updates[..i])) + if Dispatchable(updates[i]) then [(role, updates[i])] else []
    ensures NextOffset(start, updates[..i + 1]) == Max(NextOffset(start, updates[..i]), updates[i].id + 1)
  {
    assert updates[..i + 1][..i] == updates[..i];
  }

  // ---- One bot and its server ----

  // `pending` are the updates the server still has, by increasing id; `received` all it ever got; `sent` are the updates
  // dispatched since the listener last started and `ever` those dispatched at all.
  datatype Net = Net(pending: seq<Update>, received: seq<Update>, offset: nat, saved: nat, sent: seq<Update>, ever: seq<Update>)

  datatype Step =
    | Arrive(u: Update)
    | Poll(count: nat)     // the server returns the `count` lowest of the updates it may return
    | PollFails            // the request reached the server but its reply was lost
    | Save
    | Crash                // also, right after a Poll(count), a listener that stops between two of that poll's dispatches

  ghost predicate Sorted(us: seq<Update>) {
    forall i, j :: 0 <= i < j < |us| ==> us[i].id < us[j].id
  }

  // getUpdates with an offset: the server forgets every update below it.
  function Kept(us: seq<Update>, offset: nat): seq<Update> {
    if us == [] then [] else if us[0].id < offset then Kept(us[1..], offset) else us
  }

  ghost predicate Enabled(n: Net, st: Step) {
    match st
    case Arrive(u) => forall i :: 0 <= i < |n.received| ==> n.received[i].id < u.id
    case Poll(count) => count <= |Kept(n.pending, n.offset)|
    case _ => true
  }

  function Next(n: Net, st: Step): Net {
    match st
    case Arrive(u) => n.(pending := n.pending + [u], received := n.received + [u])
    case Poll(count) =>
      var kept := Kept(n.pending, n.offset);
      if count > |kept| then n else
        var got := kept[..count];
        n.(pending := kept, offset := NextOffset(n.offset, got), sent := n.sent + Dispatches(got),
           ever := n.ever + Dispatches(got))
    case PollFails => n.(pending := Kept(n.pending, n.offset))
    case Save => n.(saved := n.offset)
    case Crash => n.(offset := n.saved, sent := [])
  }

  const START: Net := Net([], [], 0, 0, [], [])

  function After(n: Net, run: seq<Step>): Net {
    if run == [] then n else Next(After(n, run[..|run| - 1]), run[|run| - 1])
  }

  ghost predicate IsRun(n: Net, run: seq<Step>) {
    forall i :: 0 <= i < |run| ==> Enabled(After(n, run[..i]), run[i])
  }

  // ---- What every step keeps ----

  // A dispatchable update has been dispatched, or the server still has it and will return it.
  ghost predicate NotLost(n: Net, u: Update) {
    Dispatchable(u) ==> u in n.ever || (u in n.pending && u.id >= n.offset)
  }

  // One above the newest id the server ever got.
  function Top(us: seq<Update>): nat {
    if us == [] then 0 else us[|us| - 1].id + 1
  }

  ghost predicate Inv(n: Net) {
    && n.saved <= n.offset <= Top(n.received)
    && Sorted(n.received) && (forall u :: u in n.ever ==> u in n.received && Dispatchable(u))
    && Sorted(n.pending) && (forall u :: u in n.pending ==> u in n.received)
    && Sorted(n.sent) && (forall u :: u in n.sent ==> u.id < n.offset)
    && (forall u :: u in n.received ==> NotLost(n, u))
  }

  lemma {:induction false} DispatchesAre(us: seq<Update>, u: Update)
    ensures u in Dispatches(us) <==> u in us && Dispatchable(u)
    ensures u in Dispatches(us) <==> u in us && u.userId != "" && u.chatId.Some? && !IsBlank(u.text)
  {
    StripIs(u.text);
    if us != [] {
      DispatchesAre(us[..|us| - 1], u);
      assert us == us[..|us| - 1] + [us[|us| - 1]];
    }
  }

  // Updates are dispatched in the order in which they were returned.
  lemma {:induction false} DispatchesJoin(a: seq<Update>, b: seq<Update>)
    ensures Dispatches(a + b) == Dispatches(a) + Dispatches(b)
  {
    if b == [] {
      assert a + b == a && Dispatches(a) + [] == Dispatches(a);
    } else {
      var n := |b| - 1;
      DispatchesJoin(a, b[..n]);
      assert (a + b)[..|a| + n] == a + b[..n];
      Assoc(Dispatches(a), Dispatches(b[..n]), if Dispatchable(b[n]) then [b[n]] else []);
    }
  }

  // The offset moves past every update of a reply, in whatever order they come, and no further.
  lemma {:induction false} NextOffsetPasses(offset: nat, us: seq<Update>)
    ensures var o := NextOffset(offset, us);
      && o >= offset && (forall i :: 0 <= i < |us| ==> us[i].id < o)
      && (o == offset || exists i :: 0 <= i < |us| && o == us[i].id + 1)
  {
    if us != [] {
      NextOffsetPasses(offset, us[..|us| - 1]);
    }
  }

  lemma {:induction false} DispatchesSorted(us: seq<Update>)
    requires Sorted(us)
    ensures Sorted(Dispatches(us))
  {
    if us != [] {
      var before := us[..|us| - 1];
      DispatchesSorted(before);
      forall u | u in Dispatches(before) ensures u.id < us[|us| - 1].id { DispatchesAre(before, u); }
    }
  }

  lemma {:induction false} NextOffsetIs(offset: nat, us: seq<Update>)
    requires Sorted(us) && forall i :: 0 <= i < |us| ==> us[i].id >= offset
    ensures NextOffset(offset, us) == if us == [] then offset else us[|us| - 1].id + 1
  {
    if us != [] {
      NextOffsetIs(offset, us[..|us| - 1]);
    }
  }

  lemma {:induction false} KeptIs(us: seq<Update>, offset: nat)
    requires Sorted(us)
    ensures Sorted(Kept(us, offset)) && forall u :: u in Kept(us, offset) <==> u in us && u.id >= offset
  {
    if us != [] && us[0].id < offset {
      KeptIs(us[1..], offset);
      assert us == [us[0]] + us[1..];
    } else if us != [] {
      forall u | u in us ensures u.id >= offset { var i :| 0 <= i < |us| && us[i] == u; }
    }
  }

  lemma TopIs(us: seq<Update>, u: Update)
    requires Sorted(us) && u in us
    ensures u.id < Top(us)
  {
    var i :| 0 <= i < |us| && us[i] == u;
  }

  // The first `count` of a sorted list are those up to the id of the last of them.
  lemma PrefixBelow(us: seq<Update>, count: nat, u: Update)
    requires Sorted(us) && 0 < count <= |us| && u in us
    ensures u in us[..count] <==> u.id < us[count - 1].id + 1
  {
    var i :| 0 <= i < |us| && us[i] == u;
    if i < count {
      assert us[..count][i] == u;
    }
  }

  // The offset after the first `count` of a sorted list separates them from the rest.
  lemma OffsetSeparates(offset: nat, us: seq<Update>, count: nat)
    requires Sorted(us) && count <= |us| && forall u :: u in us ==> u.id >= offset
    ensures var o := NextOffset(offset, us[..count]);
      o >= offset && (count > 0 ==> o == us[count - 1].id + 1) && forall u :: u in us ==> (u in us[..count] <==> u.id < o)
  {
    assert forall i :: 0 <= i < count ==> us[i] in us;
    NextOffsetIs(offset, us[..count]);
    if count > 0 {
      forall u | u in us ensures u in us[..count] <==> u.id < us[count - 1].id + 1 { PrefixBelow(us, count, u); }
    }
  }

  // What a poll gets is at or above the offset it was made with, and below the one it leaves.
  lemma PollGets(n: Net, count: nat)
    requires Inv(n) && Enabled(n, Poll(count))
    ensures var kept := Kept(n.pending, n.offset); var got, n' := kept[..count], Next(n, Poll(count));
      && Sorted(kept) && Sorted(got) && (forall u :: u in kept <==> u in n.pending && u.id >= n.offset)
      && n.offset <= n'.offset <= Top(n.received)
      && (forall u :: u in kept ==> (u in got <==> u.id < n'.offset))
  {
    KeptIs(n.pending, n.offset);
    var kept := Kept(n.pending, n.offset);
    OffsetSeparates(n.offset, kept, count);
    if count > 0 {
      assert kept[count - 1] in kept;
      TopIs(n.received, kept[count - 1]);
    }
  }

  lemma PollStep(n: Net, count: nat)
    requires Inv(n) && Enabled(n, Poll(count))
    ensures Inv(Next(n, Poll(count)))
  {
    PollGets(n, count);
    var kept := Kept(n.pending, n.offset);
    var got, n' := kept[..count], Next(n, Poll(count));
    forall u ensures u in Dispatches(got) <==> u in got && Dispatchable(u) { DispatchesAre(got, u); }
    DispatchesSorted(got);
    assert forall u :: u in got ==> u in kept;
    assert Sorted(n'.sent);
    forall u | u in n'.received ensures NotLost(n', u) {
      assert NotLost(n, u);
    }
  }

  lemma ArriveStep(n: Net, u: Update)
    requires Inv(n) && Enabled(n, Arrive(u))
    ensures Inv(Next(n, Arrive(u)))
  {
    var n' := Next(n, Arrive(u));
    forall i | 0 <= i < |n.pending| ensures n.pending[i].id < u.id { assert n.pending[i] in n.received; }
    assert Sorted(n'.received) && Sorted(n'.pending);
    forall x | x in n'.received ensures NotLost(n', x) {
      if x in n.received {
        assert NotLost(n, x);
      } else if n.received != [] {
        assert n.received[|n.received| - 1].id < u.id;
      }
    }
  }

  lemma InvStep(n: Net, st: Step)
    requires Inv(n) && Enabled(n, st)
    ensures Inv(Next(n, st))
  {
    var n' := Next(n, st);
    match st
    case Poll(count) => PollStep(n, count);
    case Arrive(u) => ArriveStep(n, u);
    case _ =>
      KeptIs(n.pending, n.offset);
      forall x | x in n'.received ensures NotLost(n', x) { assert NotLost(n, x); }
  }

  lemma {:induction false} InvRun(run: seq<Step>)
    requires IsRun(START, run)
    ensures Inv(After(START, run))
  {
    if run != [] {
      PrefixIsRun(START, run);
      InvRun(run[..|run| - 1]);
      InvStep(After(START, run[..|run| - 1]), run[|run| - 1]);
    }
  }

  lemma PrefixIsRun(n: Net, run: seq<Step>)
    requires run != [] && IsRun(n, run)
    ensures IsRun(n, run[..|run| - 1]) && Enabled(After(n, run[..|run| - 1]), run[|run| - 1])
  {
    var before := run[..|run| - 1];
    forall i | 0 <= i < |before| ensures Enabled(After(n, before[..i]), before[i]) { assert before[..i] == run[..i]; }
  }

  // ---- Exactly once ----

  // Within one life of the listener no update is dispatched twice, and updates are dispatched in the order of their ids.
  lemma {:induction false} AtMostOnce(run: seq<Step>, i: nat, j: nat)
    requires IsRun(START, run) && i < j < |After(START, run).sent|
    ensures After(START, run).sent[i].id < After(START, run).sent[j].id
  {
    InvRun(run);
  }

  lemma {:induction false} CrashFree(run: seq<Step>)
    requires Crash !in run
    ensures After(START, run).ever == After(START, run).sent
  {
    if run != [] {
      CrashFree(run[..|run| - 1]);
    }
  }

  // With the poll position past every update, each dispatchable one was dispatched: at least once in any run, exactly
  // once and by increasing id when the listener never stopped; nothing else ever was.
  lemma {:induction false} ExactlyOnce(run: seq<Step>)
    requires IsRun(START, run)
    ensures var n := After(START, run);
      && (forall u :: u in n.ever ==> u in n.received && Dispatchable(u))
      && (forall u :: u in n.received && Dispatchable(u) && u.id < n.offset ==> u in n.ever)
      && (Crash !in run ==> Sorted(n.ever) && forall u :: u in n.ever ==> u.id < n.offset)
  {
    InvRun(run);
    var n := After(START, run);
    forall u | u in n.received && Dispatchable(u) && u.id < n.offset ensures u in n.ever { assert NotLost(n, u); }
    if Crash !in run { CrashFree(run); }
  }

  // A poll that returns all the server has leaves no dispatchable update undispatched, whatever crashed before it.
  lemma {:induction false} FullPollDeliversAll(run: seq<Step>, u: Update)
    requires IsRun(START, run) && u in After(START, run).received && Dispatchable(u)
    ensures var n := After(START, run); u in Next(n, Poll(|Kept(n.pending, n.offset)|)).ever
  {
    InvRun(run);
    var n := After(START, run);
    var kept := Kept(n.pending, n.offset);
    PollGets(n, |kept|);
    assert kept[..|kept|] == kept;
    assert NotLost(n, u);
    DispatchesAre(kept, u);
  }

  // Only a stop lowers the offset, and then to the one in the file, which is never above it and never falls.
  lemma {:induction false} OffsetsRise(run: seq<Step>, st: Step)
    requires IsRun(START, run) && Enabled(After(START, run), st)
    ensures var n := After(START, run); var n' := Next(n, st);
      && n.saved <= n'.saved <= n'.offset
      && if st.Crash? then n'.offset == n.saved else n.offset <= n'.offset
  {
    InvRun(run);
    var n := After(START, run);
    InvStep(n, st);
    if st.Poll? { PollGets(n, st.count); }
  }

  lemma {:induction false} KeptAgain(us: seq<Update>, offset: nat)
    ensures Kept(Kept(us, offset), offset) == Kept(us, offset)
  {
    if us != [] && us[0].id < offset { KeptAgain(us[1..], offset); }
  }

  // A listener that stops after a poll and before saving gets the same updates again with its next poll, and dispatches
  // the same ones.
  lemma UnsavedPollIsRepeated(n: Net, count: nat)
    requires n.saved == n.offset && Enabled(n, Poll(count))
    ensures
      var n1 := Next(n, Poll(count));
      var n2 := Next(n1, Crash);
      && Kept(n2.pending, n2.offset) == Kept(n.pending, n.offset)
      && Enabled(n2, Poll(count))
      && Next(n2, Poll(count)).offset == n1.offset
      && Next(n2, Poll(count)).ever == n1.ever + Dispatches(Kept(n.pending, n.offset)[..count])
  {
    KeptAgain(n.pending, n.offset);
  }

  // A save outlasts a stop: the listener goes on from where it was, and the server and what was dispatched stay.
  lemma {:induction false} SaveOutlastsStop(n: Net)
    ensures var m := Next(Next(n, Save), Crash);
      m.offset == n.offset && m.saved == n.offset && m.pending == n.pending && m.received == n.received && m.ever == n.ever && m.sent == []
  {
  }

  // A request whose reply is lost moves nothing but what the server forgets, which is below the offset; an update that
  // arrives is pending, above the others.
  lemma {:induction false} ServerTells(n: Net, u: Update)
    ensures Next(n, PollFails) == n.(pending := Kept(n.pending, n.offset))
    ensures Next(n, Arrive(u)) == n.(pending := n.pending + [u], received := n.received + [u])
  {
  }

  // A stop after a save brings back nothing that was dispatched since the listener last started.
  lemma {:induction false} SavedPollIsNotRepeated(run: seq<Step>, count: nat, u: Update)
    requires IsRun(START, run) && After(START, run).saved == After(START, run).offset
    requires Enabled(After(START, run), Poll(count)) && u in After(START, run).sent
    ensures var n := Next(After(START, run), Crash);
      Enabled(n, Poll(count)) && u !in Kept(n.pending, n.offset)[..count]
  {
    InvRun(run);
    var n := After(START, run);
    KeptIs(n.pending, n.offset);
    var kept := Kept(n.pending, n.offset);
    assert forall i :: 0 <= i < count ==> kept[..count][i] in kept;
  }
}
