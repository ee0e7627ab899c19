// The task store (shared/task_store.py): an index of tasks in order of creation and three rendered views of it.
module Tasks {
  import opened Common
  import opened Text

  datatype Task = Task(
    id: string, title: string, details: string, status: string, owner: string, sessionKey: string, refs: seq<string>,
    createdAt: real, updatedAt: real)

  datatype View = OpenView | BlockedView | CompletedView

  // The entries of the three files, which are their lines unless a field of a task holds a newline.
  datatype Views = Views(open: seq<string>, blocked: seq<string>, completed: seq<string>) {
    function Of(v: View): seq<string> {
      match v
      case OpenView => open
      case BlockedView => blocked
      case CompletedView => completed
    }

    function Plus(v: View, line: string): Views {
      match v
      case OpenView => this.(open := open + [line])
      case BlockedView => this.(blocked := blocked + [line])
      case CompletedView => this.(completed := completed + [line])
    }
  }

  // The files themselves.
  datatype Files = Files(open: string, blocked: string, completed: string) {
    function Of(v: View): string {
      match v
      case OpenView => open
      case BlockedView => blocked
      case CompletedView => completed
    }
  }

  // `"\n".join(lines).rstrip() + "\n"`
  function FileText(entries: seq<string>): string { RStrip(Join("\n", entries)) + "\n" }

  function FilesOf(views: Views): Files {
    Files(FileText(views.open), FileText(views.blocked), FileText(views.completed))
  }

  // TASK_STATUS_BUCKETS, with unknown statuses in the open view.
  function BucketOf(status: string): View {
    if status == "blocked" then BlockedView else if status == "completed" then CompletedView else OpenView
  }

  predicate IsOpen(status: string) { status in {"open", "in_progress", "blocked"} }

  function Header(v: View): string {
    match v
    case OpenView => "# Open Tasks"
    case BlockedView => "# Blocked Tasks"
    case CompletedView => "# Completed Tasks"
  }

  function LineOf(t: Task): string {
    "- " + t.id + " [" + t.status + "] " + t.title + " (" + t.sessionKey + ")"
  }

  // The tasks of a bucket, in index order.
  function InBucket(index: seq<Task>, v: View): seq<Task> {
    if index == [] then [] else
      var last := index[|index| - 1];
      InBucket(index[..|index| - 1], v) + if BucketOf(last.status) == v then [last] else []
  }

  function Lines(tasks: seq<Task>): seq<string> {
    seq(|tasks|, i requires 0 <= i < |tasks| => LineOf(tasks[i]))
  }

  function Shown(index: seq<Task>, v: View): seq<string> {
    [Header(v)] + Lines(InBucket(index, v))
  }

  function Rendered(index: seq<Task>): Views {
    Views(Shown(index, OpenView), Shown(index, BlockedView), Shown(index, CompletedView))
  }

  function IndexOf(index: seq<Task>, id: string): (n: nat)
    ensures n <= |index| && (n < |index| ==> index[n].id == id)
    ensures forall i :: 0 <= i < n ==> index[i].id != id
  {
    if index == [] || index[0].id == id then 0 else 1 + IndexOf(index[1..], id)
  }

  ghost predicate UniqueIds(index: seq<Task>) {
    forall i, j :: 0 <= i < j < |index| ==> index[i].id != index[j].id
  }

  lemma UniqueIndex(index: seq<Task>, n: nat)
    requires UniqueIds(index) && n < |index|
    ensures IndexOf(index, index[n].id) == n
  {
    var k := IndexOf(index, index[n].id);
    assert k <= n ==> k == n;
  }

  datatype Changes = Changes(
    title: Option<string>, details: Option<string>, status: Option<string>, owner: Option<string>, refs: Option<seq<string>>)

  function Or<T>(o: Option<T>, old_: T): T {
    if o.Some? then o.value else old_
  }

  function Updated(t: Task, c: Changes, now: real): Task {
    t.(title := Or(c.title, t.title), details := Or(c.details, t.details), status := Or(c.status, t.status),
       owner := Or(c.owner, t.owner), refs := Or(c.refs, t.refs), updatedAt := now)
  }

  function Noted(t: Task, note: string, ref: string, now: real): Task {
    var details := RStrip(t.details);
    t.(details := (if details != "" then details + "\n\n" else "") + "- " + Strip(note),
       refs := if ref != "" && ref !in t.refs then t.refs + [ref] else t.refs,
       updatedAt := now)
  }

  class TaskStore {
    var index: seq<Task>
    var files: Files

    constructor ()
      ensures index == [] && files == FilesOf(Rendered([]))
    {
      index := [];
      files := FilesOf(Views([Header(OpenView)], [Header(BlockedView)], [Header(CompletedView)]));
    }

    method RenderViews()
      modifies this`files
      ensures files == FilesOf(Rendered(index))
    {
      var buckets := Views([Header(OpenView)], [Header(BlockedView)], [Header(CompletedView)]);
      var i := 0;
      while i < |index|
        invariant 0 <= i <= |index| && buckets == Rendered(index[..i])
      {
        RenderedPlus(index[..i], index[i]);
        assert index[..i + 1] == index[..i] + [index[i]];
        buckets := buckets.Plus(BucketOf(index[i].status), LineOf(index[i]));
        i := i + 1;
      }
      assert index[..i] == index;
      files := FilesOf(buckets);
    }

    method CreateTask(id: string, title: string, sessionKey: string, details: string, owner: string, status: string, refs: seq<string>, now: real)
      returns (t: Task)
      requires forall i :: 0 <= i < |index| ==> index[i].id != id   // a fresh uuid4
      modifies this
      ensures t == Task(id, title, details, status, owner, sessionKey, refs, now, now)
      ensures index == old(index) + [t] && files == FilesOf(Rendered(index))
    {
      t := Task(id, title, details, status, owner, sessionKey, refs, now, now);
      index := index + [t];
      RenderViews();
    }

    // None is the KeyError of an unknown id.
    method UpdateTask(id: string, c: Changes, now: real) returns (t: Option<Task>)
      modifies this
      ensures var n := IndexOf(old(index), id);
        if n == |old(index)| then t == None && index == old(index) && files == old(files)
        else t == Some(Updated(old(index)[n], c, now)) && index == old(index)[n := t.value] && files == FilesOf(Rendered(index))
      ensures t.Some? ==> var was := old(index)[IndexOf(old(index), id)];
        && t.value.id == id == was.id && t.value.sessionKey == was.sessionKey && t.value.createdAt == was.createdAt
        && t.value.updatedAt == now
        && t.value.title == (if c.title.Some? then c.title.value else was.title)
        && t.value.details == (if c.details.Some? then c.details.value else was.details)
        && t.value.status == (if c.status.Some? then c.status.value else was.status)
        && t.value.owner == (if c.owner.Some? then c.owner.value else was.owner)
        && t.value.refs == (if c.refs.Some? then c.refs.value else was.refs)
    {
      var n := IndexOf(index, id);
      if n == |index| { return None; }
      t := Some(Updated(index[n], c, now));
      index := index[n := t.value];
      RenderViews();
    }

    method AppendNote(id: string, note: string, ref: string, now: real) returns (t: Option<Task>)
      modifies this
      ensures var n := IndexOf(old(index), id);
        if n == |old(index)| then t == None && index == old(index) && files == old(files)
        else t == Some(Noted(old(index)[n], note, ref, now)) && index == old(index)[n := t.value] && files == FilesOf(Rendered(index))
      ensures t.Some? ==> var was := old(index)[IndexOf(old(index), id)];
        && t.value == was.(details := t.value.details, refs := t.value.refs, updatedAt := now) && was.id == id
        && t.value.details == (if IsBlank(was.details) then "" else RStrip(was.details) + "\n\n") + "- " + Strip(note)
        && t.value.refs == was.refs + (if ref == "" || ref in was.refs then [] else [ref])
    {
      var n := IndexOf(index, id);
      if n == |index| { return None; }
      RStripBlank(index[n].details);
      t := Some(Noted(index[n], note, ref, now));
      index := index[n := t.value];
      RenderViews();
    }
  }

  lemma ShownPlus(index: seq<Task>, t: Task, v: View)
    ensures Shown(index + [t], v) == Shown(index, v) + if BucketOf(t.status) == v then [LineOf(t)] else []
  {
    assert (index + [t])[..|index|] == index;
  }

  lemma RenderedPlus(index: seq<Task>, t: Task)
    ensures Rendered(index + [t]) == Rendered(index).Plus(BucketOf(t.status), LineOf(t))
  {
    ShownPlus(index, t, OpenView);
    ShownPlus(index, t, BlockedView);
    ShownPlus(index, t, CompletedView);
  }

  // ---- What the views show ----

  lemma {:induction false} BucketsPartition(index: seq<Task>)
    ensures |InBucket(index, OpenView)| + |InBucket(index, BlockedView)| + |InBucket(index, CompletedView)| == |index|
  {
    if index != [] {
      BucketsPartition(index[..|index| - 1]);
    }
  }

  lemma {:induction false} BucketPosition(index: seq<Task>, i: nat, v: View)
    requires i < |index| && BucketOf(index[i].status) == v
    ensures |InBucket(index[..i], v)| < |InBucket(index, v)| && InBucket(index, v)[|InBucket(index[..i], v)|] == index[i]
    decreases |index|
  {
    var last := |index| - 1;
    if i < last {
      BucketPosition(index[..last], i, v);
      assert index[..last][..i] == index[..i];
    }
  }

  // Each task has exactly one entry in all the views together: it is in the view of its status, below the entries of the
  // tasks of that view that come before it in the index, and the views have no other entries than these and the headers.
  lemma EachTaskShownOnce(index: seq<Task>, i: nat)
    requires i < |index|
    ensures var v := BucketOf(index[i].status); var row := 1 + |InBucket(index[..i], v)|;
      row < |Rendered(index).Of(v)| &&
      Rendered(index).Of(v)[row] ==
        "- " + index[i].id + " [" + index[i].status + "] " + index[i].title + " (" + index[i].sessionKey + ")"
    ensures BucketOf(index[i].status) ==
      if index[i].status == "blocked" then BlockedView else if index[i].status == "completed" then CompletedView else OpenView
    ensures Rendered(index).open[..1] == ["# Open Tasks"]
    ensures Rendered(index).blocked[..1] == ["# Blocked Tasks"] && Rendered(index).completed[..1] == ["# Completed Tasks"]
    ensures |Rendered(index).open| + |Rendered(index).blocked| + |Rendered(index).completed| == |index| + 3
  {
    BucketsPartition(index);
    BucketPosition(index, i, BucketOf(index[i].status));
  }

  // ---- What a reader of the files finds ----

  // The lines of a text, after the characters of `word` have been read.
  function SplitLines(word: string, s: string): seq<string>
    decreases |s|
  {
    if s == "" then [word]
    else if s[0] == '\n' then [word] + SplitLines("", s[1..])
    else SplitLines(word + [s[0]], s[1..])
  }

  predicate OneLine(s: string) { '\n' !in s }

  // A field of the task breaks its line.
  predicate Breaks(t: Task) {
    '\n' in t.id || '\n' in t.status || '\n' in t.title || '\n' in t.sessionKey
  }

  lemma LineBreaks(t: Task)
    ensures OneLine(LineOf(t)) <==> !Breaks(t)
  {
  }

  function Newlines(s: string): nat {
    if s == "" then 0 else (if s[0] == '\n' then 1 else 0) + Newlines(s[1..])
  }

  lemma {:induction false} NewlinesJoin(a: string, b: string)
    ensures Newlines(a + b) == Newlines(a) + Newlines(b)
  {
    if a == "" {
      assert a + b == b;
    } else {
      NewlinesJoin(a[1..], b);
      assert (a + b)[1..] == a[1..] + b;
    }
  }

  lemma {:induction false} NoNewlines(s: string)
    ensures Newlines(s) == 0 <==> OneLine(s)
  {
    if s != "" {
      NoNewlines(s[1..]);
      assert s == [s[0]] + s[1..];
    }
  }

  lemma {:induction false} SplitCounts(word: string, s: string)
    ensures |SplitLines(word, s)| == 1 + Newlines(s)
    decreases |s|
  {
    if s != "" {
      SplitCounts(if s[0] == '\n' then "" else word + [s[0]], s[1..]);
    }
  }

  lemma {:induction false} SplitWord(word: string, a: string, rest: string)
    requires OneLine(a)
    ensures SplitLines(word, a + rest) == SplitLines(word + a, rest)
    decreases |a|
  {
    if a == "" {
      assert a + rest == rest && word + a == word;
    } else {
      SplitWord(word + [a[0]], a[1..], rest);
      assert (a + rest)[1..] == a[1..] + rest && word + [a[0]] + a[1..] == word + a;
    }
  }

  lemma SplitFirst(a: string, rest: string)
    requires OneLine(a)
    ensures SplitLines("", a) == [a] && SplitLines("", a + ("\n" + rest)) == [a] + SplitLines("", rest)
  {
    assert a + "" == a && "" + a == a;
    SplitWord("", a, "");
    SplitWord("", a, "\n" + rest);
    assert ("\n" + rest)[1..] == rest;
  }

  lemma {:induction false} JoinCounts(parts: seq<string>)
    requires parts != []
    ensures Newlines(Join("\n", parts)) >= |parts| - 1
    ensures Newlines(Join("\n", parts)) == |parts| - 1 <==> AllOneLine(parts)
    decreases |parts|
  {
    NoNewlines(parts[0]);
    if |parts| > 1 {
      var rest := Join("\n", parts[1..]);
      JoinCounts(parts[1..]);
      NewlinesJoin(parts[0] + "\n", rest);
      NewlinesJoin(parts[0], "\n");
      assert Newlines("\n") == 1 by { assert "\n"[1..] == ""; }
      assert forall i :: 1 <= i < |parts| ==> parts[i] == parts[1..][i - 1];
    }
  }

  lemma {:induction false} SplitJoin(parts: seq<string>)
    requires parts != [] && AllOneLine(parts)
    ensures SplitLines("", Join("\n", parts)) == parts
    decreases |parts|
  {
    if |parts| == 1 {
      SplitFirst(parts[0], "");
    } else {
      var rest := Join("\n", parts[1..]);
      SplitJoin(parts[1..]);
      SplitFirst(parts[0], rest);
      assert Join("\n", parts) == parts[0] + ("\n" + rest);
      assert parts == [parts[0]] + parts[1..];
    }
  }

  lemma SplitGivesBack(parts: seq<string>)
    requires parts != []
    ensures SplitLines("", Join("\n", parts)) == parts <==> AllOneLine(parts)
  {
    if AllOneLine(parts) {
      SplitJoin(parts);
    } else {
      JoinCounts(parts);
      SplitCounts("", Join("\n", parts));
    }
  }

  lemma {:induction false} JoinEnds(parts: seq<string>)
    requires parts != [] && parts[|parts| - 1] != ""
    ensures var s, last := Join("\n", parts), parts[|parts| - 1]; s != "" && s[|s| - 1] == last[|last| - 1]
    ensures Join("\n", parts + [""]) == Join("\n", parts) + "\n"
    decreases |parts|
  {
    assert (parts + [""])[1..] == parts[1..] + [""];
    if |parts| > 1 {
      JoinEnds(parts[1..]);
      var a, b := parts[0] + "\n", Join("\n", parts[1..]);
      assert a + (b + "\n") == a + b + "\n";
    } else {
      assert Join("\n", [""]) == "";
      assert parts[0] + "\n" + "" == parts[0] + "\n";
    }
  }

  // Stripping takes nothing off: the last entry ends in a letter or a parenthesis.
  lemma TextOf(index: seq<Task>, v: View)
    ensures FileText(Shown(index, v)) == Join("\n", Shown(index, v) + [""])
  {
    var entries := Shown(index, v);
    var last := entries[|entries| - 1];
    assert last != "" && (last[|last| - 1] == 's' || last[|last| - 1] == ')');
    JoinEnds(entries);
  }

  ghost predicate AllOneLine(parts: seq<string>) {
    forall i :: 0 <= i < |parts| ==> OneLine(parts[i])
  }

  ghost predicate NoneBreaks(tasks: seq<Task>) {
    forall i :: 0 <= i < |tasks| ==> !Breaks(tasks[i])
  }

  lemma LinesBreak(tasks: seq<Task>)
    ensures AllOneLine(Lines(tasks)) <==> NoneBreaks(tasks)
  {
    forall i | 0 <= i < |tasks| ensures OneLine(Lines(tasks)[i]) <==> !Breaks(tasks[i]) { LineBreaks(tasks[i]); }
    if i :| 0 <= i < |tasks| && Breaks(tasks[i]) {
      assert !OneLine(Lines(tasks)[i]);
    }
  }

  lemma AroundOneLine(first: string, parts: seq<string>, last: string)
    requires OneLine(first) && OneLine(last)
    ensures AllOneLine([first] + parts + [last]) <==> AllOneLine(parts)
  {
    var all := [first] + parts + [last];
    assert forall i :: 0 <= i < |parts| ==> all[i + 1] == parts[i];
  }

  lemma HeaderIsOneLine(v: View)
    ensures OneLine(Header(v))
  {
  }

  // The lines of a view's file are its entries if and only if no field of a task in it holds a newline.
  lemma {:induction false} FileShowsEntries(index: seq<Task>, v: View)
    ensures SplitLines("", FilesOf(Rendered(index)).Of(v)) == Shown(index, v) + [""] <==> NoneBreaks(InBucket(index, v))
  {
    var entries := Shown(index, v) + [""];
    TextOf(index, v);
    LinesBreak(InBucket(index, v));
    HeaderIsOneLine(v);
    AroundOneLine(Header(v), Lines(InBucket(index, v)), "");
    SplitGivesBack(entries);
  }

  lemma {:induction false} LineInside(word: string, a: string, line: string, b: string)
    requires OneLine(line)
    ensures line in SplitLines(word, a + ("\n" + (line + ("\n" + b))))
    decreases |a|
  {
    var rest := "\n" + (line + ("\n" + b));
    if a == "" {
      assert a + rest == rest && rest[1..] == line + ("\n" + b);
      SplitFirst(line, b);
    } else {
      LineInside(if a[0] == '\n' then "" else word + [a[0]], a[1..], line, b);
      assert (a + rest)[1..] == a[1..] + rest;
    }
  }

  // With a newline in its title one task can show another's line, which need not even be stored.
  lemma {:induction false} TitleForgesLine(t: Task, u: Task)
    requires !Breaks(u) && t.title == "\n" + LineOf(u) + "\n"
    ensures LineOf(u) in SplitLines("", FilesOf(Rendered([t])).Of(BucketOf(t.status)))
  {
    var v := BucketOf(t.status);
    var before, after := "- " + t.id + " [" + t.status + "] ", " (" + t.sessionKey + ")";
    LineBreaks(u);
    TextOf([t], v);
    OnlyTask(t);
    JoinThree(Header(v), LineOf(t), "");
    assert LineOf(t) == before + ("\n" + LineOf(u) + "\n") + after;
    Regroup(Header(v), before, LineOf(u), after);
    LineInside("", Header(v) + "\n" + before, LineOf(u), after + "\n");
  }

  lemma Regroup(a: string, b: string, line: string, c: string)
    ensures a + "\n" + (b + ("\n" + line + "\n") + c + "\n" + "") == (a + "\n" + b) + ("\n" + (line + ("\n" + (c + "\n"))))
  {
  }

  lemma JoinThree(a: string, b: string, c: string)
    ensures Join("\n", [a, b, c]) == a + "\n" + (b + "\n" + c)
  {
    assert [a, b, c][1..] == [b, c] && [b, c][1..] == [c];
    assert Join("\n", [c]) == c && Join("\n", [b, c]) == b + "\n" + c;
  }

  lemma OnlyTask(t: Task)
    ensures Shown([t], BucketOf(t.status)) + [""] == [Header(BucketOf(t.status)), LineOf(t), ""]
  {
    assert [t][..0] == [];
    assert InBucket([t], BucketOf(t.status)) == [] + [t];
    assert Lines([t]) == [LineOf(t)];
  }

  // ---- The most recently updated open task of a session ----

  predicate Candidate(t: Task, key: string) { t.sessionKey == key && IsOpen(t.status) }

  // Python sorts by (status, updated_at, id) and then, stably, by updated_at with the latest first.
  predicate Before(a: Task, b: Task) {
    a.updatedAt > b.updatedAt ||
    (a.updatedAt == b.updatedAt && (Precedes(a.status, b.status) || (a.status == b.status && Precedes(a.id, b.id))))
  }

  // Which of a session's open tasks is taken to be the one worked on: it is open, in progress or blocked, no other of them
  // was updated later, and of several updated at that time none comes before it by status and id.
  lemma {:induction false} LatestIs(index: seq<Task>, key: string)
    ensures match Latest(index, key)
      case None => forall i :: 0 <= i < |index| ==> !(index[i].sessionKey == key && index[i].status in {"open", "in_progress", "blocked"})
      case Some(n) =>
        && n < |index| && index[n].sessionKey == key && index[n].status in {"open", "in_progress", "blocked"}
        && forall i :: 0 <= i < |index| && index[i].sessionKey == key && index[i].status in {"open", "in_progress", "blocked"} ==>
             && index[i].updatedAt <= index[n].updatedAt
             && (index[i].updatedAt == index[n].updatedAt ==>
                  !Precedes(index[i].status, index[n].status) &&
                  (index[i].status == index[n].status ==> !Precedes(index[i].id, index[n].id)))
  {
    NoneBefore(index, key);
  }

  lemma {:induction false} NoneBefore(index: seq<Task>, key: string)
    ensures Latest(index, key).Some? ==>
      forall i :: 0 <= i < |index| && Candidate(index[i], key) ==> !Before(index[i], index[Latest(index, key).value])
  {
    if index != [] && Latest(index, key).Some? {
      var last := |index| - 1;
      var before, n := Latest(index[..last], key), Latest(index, key).value;
      NoneBefore(index[..last], key);
      forall i | 0 <= i < |index| && Candidate(index[i], key) ensures !Before(index[i], index[n]) {
        BeforeIsStrict(index[i], index[n]);
        if i < last {
          assert index[..last][i] == index[i] && before.Some?;
          if n == last && Before(index[i], index[n]) { BeforeIsTransitive(index[i], index[n], index[before.value]); }
        }
      }
    }
  }

  lemma BeforeIsStrict(a: Task, b: Task)
    ensures !(Before(a, b) && Before(b, a)) && (a == b ==> !Before(a, b))
  {
    PrecedesIsStrict(a.status, b.status);
    PrecedesIsStrict(a.id, b.id);
  }

  lemma BeforeIsTransitive(a: Task, b: Task, c: Task)
    requires Before(a, b) && Before(b, c)
    ensures Before(a, c)
  {
    if Precedes(a.status, b.status) && Precedes(b.status, c.status) { PrecedesIsTransitive(a.status, b.status, c.status); }
    if Precedes(a.id, b.id) && Precedes(b.id, c.id) { PrecedesIsTransitive(a.id, b.id, c.id); }
  }

  function Latest(index: seq<Task>, key: string): (n: Option<nat>)
    ensures n.Some? ==> n.value < |index| && Candidate(index[n.value], key)
    ensures n.None? ==> forall i :: 0 <= i < |index| ==> !Candidate(index[i], key)
    ensures n.Some? ==> forall i :: 0 <= i < |index| && Candidate(index[i], key) ==> index[i].updatedAt <= index[n.value].updatedAt
  {
    if index == [] then None else
      var last := |index| - 1;
      var n := Latest(index[..last], key);
      if Candidate(index[last], key) && (n.None? || Before(index[last], index[n.value])) then Some(last) else n
  }
}
