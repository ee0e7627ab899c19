// The rotating text log (shared/oplog.py, RotatingTextLog): a current file and numbered backups, 1 being the newest.
module RotatingLog {
  import opened Common

  type File = seq<byte>

  // A text to append, code point by code point. Python can hold lone surrogates: they are left out of the size that
  // decides on rotation (errors="ignore") but are written as '?' (errors="replace").
  datatype CodePoint = Scalar(utf8: seq<byte>) | Surrogate {
    predicate Valid() { Scalar? ==> 1 <= |utf8| <= 4 }
    function Written(): seq<byte> { if Scalar? then utf8 else [63] }
    function Counted(): nat { if Scalar? then |utf8| else 0 }
  }

  type Text = t: seq<CodePoint> | forall i :: 0 <= i < |t| ==> t[i].Valid()

  function Written(t: Text): File {
    if t == [] then [] else t[0].Written() + Written(t[1..])
  }

  function Counted(t: Text): nat {
    if t == [] then 0 else t[0].Counted() + Counted(t[1..])
  }

  function Surrogates(t: Text): nat {
    if t == [] then 0 else (if t[0].Surrogate? then 1 else 0) + Surrogates(t[1..])
  }

  // Exactly the lone surrogates are written without being counted.
  lemma {:induction false} WrittenIsCountedPlusSurrogates(t: Text)
    ensures |Written(t)| == Counted(t) + Surrogates(t) && |Written(t)| >= |t|
  {
    if t != [] {
      assert t[0].Valid();
      WrittenIsCountedPlusSurrogates(t[1..]);
    }
  }

  // A text is written code point by code point, in order: a scalar value as its UTF-8 bytes, a lone surrogate as '?'. The
  // size that decides on rotation counts the bytes of the scalar values alone.
  lemma {:induction false} WrittenJoins(a: Text, b: Text)
    ensures Written(a + b) == Written(a) + Written(b) && Counted(a + b) == Counted(a) + Counted(b)
  {
    if a == [] {
      assert a + b == b;
    } else {
      WrittenJoins(a[1..], b);
      assert (a + b)[1..] == a[1..] + b;
      Assoc(a[0].Written(), Written(a[1..]), Written(b));
    }
  }

  lemma {:induction false} WrittenOne(c: CodePoint)
    requires c.Valid()
    ensures Written([]) == [] && Counted([]) == 0
    ensures match c
            case Scalar(utf8) => Written([c]) == utf8 && Counted([c]) == |utf8|
            case Surrogate => Written([c]) == [63] && Counted([c]) == 0
  {
    var one: Text, none: Text := [c], [];
    assert one[1..] == none;
  }

  // ---- The directory: the current file, and the backups by the number in their names ----

  datatype Dir = Dir(current: Option<File>, backups: map<int, File>)

  function Numbered(backups: map<int, File>, i: int): Option<File> {
    if i in backups then Some(backups[i]) else None
  }

  // What a rotation does to the backups, whatever files there are: those numbered below the count move up by one and
  // the current file becomes number 1. A count below 1 still keeps number 1.
  ghost predicate IsRotation(count: int, a: Dir, b: Dir) {
    if count >= 1 then
      && Numbered(b.backups, 1) == a.current
      && (forall i :: 2 <= i <= count ==> Numbered(b.backups, i) == Numbered(a.backups, i - 1))
      && (forall i :: i < 1 || i > count ==> Numbered(b.backups, i) == Numbered(a.backups, i))
    else
      && Numbered(b.backups, 1) == (if a.current.Some? then a.current else Numbered(a.backups, 1))
      && Numbered(b.backups, count) == None
      && (forall i :: i != 1 && i != count ==> Numbered(b.backups, i) == Numbered(a.backups, i))
  }

  function Size(f: Option<File>): nat {
    if f.Some? then |f.value| else 0
  }

  ghost predicate IsAppend(maxBytes: int, count: int, a: Dir, b: Dir, text: Text) {
    if text == [] then b == a
    else if Size(a.current) + Counted(text) <= maxBytes then
      b == a.(current := Some((if a.current.Some? then a.current.value else []) + Written(text)))
    else
      IsRotation(count, a, b) && b.current == Some(Written(text))
  }

  class RotatingTextLog {
    const maxBytes: int
    const backupCount: int
    var current: Option<File>
    var backups: map<int, File>

    constructor (maxBytes: int, backupCount: int)
      ensures this.maxBytes == maxBytes && this.backupCount == backupCount && View() == Dir(None, map[])
    {
      this.maxBytes, this.backupCount, current, backups := maxBytes, backupCount, None, map[];
    }

    function View(): Dir
      reads this
    {
      Dir(current, backups)
    }

    method Append(text: Text)
      modifies this
      ensures IsAppend(maxBytes, backupCount, old(View()), View(), text)
    {
      if text == [] { return; }
      RotateIfNeeded(Counted(text));
      current := Some((if current.Some? then current.value else []) + Written(text));
      assert [] + Written(text) == Written(text);
    }

    method RotateIfNeeded(incoming: nat)
      modifies this
      ensures Size(old(current)) + incoming <= maxBytes ==> View() == old(View())
      ensures Size(old(current)) + incoming > maxBytes ==>
                current == None && IsRotation(backupCount, old(View()), View())
    {
      if Size(current) + incoming <= maxBytes { return; }
      backups := backups - {backupCount};
      var idx := backupCount - 1;
      ghost var was := old(backups);
      while idx > 0
        invariant backupCount >= 1 ==> 0 <= idx < backupCount
        invariant backupCount < 1 ==> idx == backupCount - 1
        invariant forall i :: idx + 1 < i <= backupCount ==> Numbered(backups, i) == Numbered(was, i - 1)
        invariant backupCount >= 1 ==> Numbered(backups, idx + 1) == None
        invariant forall i :: (i <= idx || i > backupCount) && i != backupCount ==> Numbered(backups, i) == Numbered(was, i)
        invariant backupCount < 1 ==> backups == was - {backupCount}
        invariant current == old(current)
      {
        ghost var before := backups;
        assert Numbered(before, idx) == Numbered(was, idx);
        if idx in backups {
          backups := backups[idx + 1 := backups[idx]] - {idx};
        }
        assert forall i :: i != idx && i != idx + 1 ==> Numbered(backups, i) == Numbered(before, i);
        assert Numbered(backups, idx + 1) == Numbered(before, idx) && Numbered(backups, idx) == None;
        idx := idx - 1;
      }
      ghost var shifted := backups;
      if current.Some? {
        backups := backups[1 := current.value];
        current := None;
      }
      assert forall i :: i != 1 ==> Numbered(backups, i) == Numbered(shifted, i);
    }
  }

  // ---- The files as a list, newest first ----

  // The existing files are the current one and backups numbered contiguously from 1.
  ghost predicate Holds(d: Dir, files: seq<File>) {
    && d.current == (if files == [] then None else Some(files[0]))
    && forall i :: i >= 1 ==> Numbered(d.backups, i) == if i < |files| then Some(files[i]) else None
  }

  function Appended(maxBytes: int, count: nat, files: seq<File>, text: Text): seq<File> {
    if text == [] then files
    else if (if files == [] then 0 else |files[0]|) + Counted(text) <= maxBytes then
      [(if files == [] then [] else files[0]) + Written(text)] + if files == [] then [] else files[1..]
    else [Written(text)] + files[..if |files| <= count then |files| else count]
  }

  lemma RotationOnList(count: nat, a: Dir, b: Dir, files: seq<File>, i: int)
    requires count >= 1 && |files| <= count + 1 && Holds(a, files) && IsRotation(count, a, b) && i >= 1
    ensures Numbered(b.backups, i) == if i <= |files| && i <= count then Some(files[i - 1]) else None
  {
    if i == 1 {
    } else if i <= count {
      assert Numbered(b.backups, i) == Numbered(a.backups, i - 1);
    } else {
      assert Numbered(b.backups, i) == Numbered(a.backups, i);
    }
  }

  lemma RotateThenWrite(count: nat, a: Dir, b: Dir, files: seq<File>, w: File)
    requires count >= 1 && |files| <= count + 1 && Holds(a, files) && IsRotation(count, a, b) && b.current == Some(w)
    ensures Holds(b, [w] + files[..if |files| <= count then |files| else count])
  {
    var k := if |files| <= count then |files| else count;
    forall i | i >= 1
      ensures Numbered(b.backups, i) == if i < k + 1 then Some(files[i - 1]) else None
    {
      RotationOnList(count, a, b, files, i);
    }
  }

  lemma WriteInPlace(a: Dir, files: seq<File>, f: File)
    requires Holds(a, files)
    ensures Holds(a.(current := Some(f)), [f] + if files == [] then [] else files[1..])
  {
    var after := [f] + if files == [] then [] else files[1..];
    forall i | i >= 1
      ensures Numbered(a.backups, i) == if i < |after| then Some(after[i]) else None
    {
      assert i < |files| ==> after[i] == files[i];
    }
  }

  // The list tells all that an append does to the directory.
  lemma {:induction false} AppendOnList(maxBytes: int, count: nat, a: Dir, b: Dir, files: seq<File>, text: Text)
    requires count >= 1 && |files| <= count + 1 && Holds(a, files) && IsAppend(maxBytes, count, a, b, text)
    ensures Holds(b, Appended(maxBytes, count, files, text))
  {
    if text == [] {
    } else if Size(a.current) + Counted(text) <= maxBytes {
      WriteInPlace(a, files, b.current.value);
    } else {
      RotateThenWrite(count, a, b, files, Written(text));
    }
  }

  // What a reader gets from the files, oldest first.
  function Content(files: seq<File>): File {
    if files == [] then [] else Content(files[1..]) + files[0]
  }

  // The bytes that an append makes unreadable.
  function Dropped(maxBytes: int, count: nat, files: seq<File>, text: Text): File {
    if text == [] || (if files == [] then 0 else |files[0]|) + Counted(text) <= maxBytes || |files| <= count then []
    else Content(files[count..])
  }

  lemma {:induction false} ContentSplits(files: seq<File>, k: nat)
    requires k <= |files|
    ensures Content(files) == Content(files[k..]) + Content(files[..k])
  {
    if k > 0 {
      ContentSplits(files[1..], k - 1);
      assert files[1..][k - 1..] == files[k..] && files[1..][..k - 1] == files[..k][1..];
    }
  }

  lemma ContentOfHead(f: File, tail: seq<File>)
    ensures Content([f] + tail) == Content(tail) + f
  {
    assert ([f] + tail)[1..] == tail;
  }

  lemma AppendKeepsSuffix(maxBytes: int, count: nat, files: seq<File>, text: Text)
    ensures Content(files) + Written(text) ==
            Dropped(maxBytes, count, files, text) + Content(Appended(maxBytes, count, files, text))
  {
    var w := Written(text);
    if text == [] {
    } else if (if files == [] then 0 else |files[0]|) + Counted(text) <= maxBytes {
      var head, tail := if files == [] then [] else files[0], if files == [] then [] else files[1..];
      ContentOfHead(head + w, tail);
      SeqAssoc(Content(tail), head, w);
    } else {
      var k := if |files| <= count then |files| else count;
      ContentSplits(files, k);
      ContentOfHead(w, files[..k]);
      SeqAssoc(Content(files[k..]), Content(files[..k]), w);
    }
  }

  lemma SeqAssoc(a: File, b: File, c: File)
    ensures a + b + c == a + (b + c)
  {
  }

  // ---- Whole runs, from an empty directory ----

  // The files, everything appended, and the part of it that was dropped.
  datatype Run = Run(files: seq<File>, history: File, lost: File)

  function Then(maxBytes: int, count: nat, r: Run, t: Text): Run {
    Run(Appended(maxBytes, count, r.files, t), r.history + Written(t), r.lost + Dropped(maxBytes, count, r.files, t))
  }

  function Play(maxBytes: int, count: nat, texts: seq<Text>): Run {
    if texts == [] then Run([], [], [])
    else Then(maxBytes, count, Play(maxBytes, count, texts[..|texts| - 1]), texts[|texts| - 1])
  }

  function Joined(texts: seq<Text>): Text {
    if texts == [] then [] else Joined(texts[..|texts| - 1]) + texts[|texts| - 1]
  }

  // The history of a run is all its texts, written one after the other.
  lemma {:induction false} HistoryIsAllTexts(maxBytes: int, count: nat, texts: seq<Text>)
    ensures Play(maxBytes, count, texts).history == Written(Joined(texts))
  {
    if texts != [] {
      var n := |texts| - 1;
      HistoryIsAllTexts(maxBytes, count, texts[..n]);
      WrittenJoins(Joined(texts[..n]), texts[n]);
    }
  }

  ghost predicate AdjacentExceed(maxBytes: int, files: seq<File>) {
    forall i :: 0 <= i < |files| - 1 ==> |files[i]| + |files[i + 1]| > maxBytes
  }

  lemma AppendKeepsPairs(maxBytes: int, count: nat, files: seq<File>, text: Text)
    requires count >= 1 && AdjacentExceed(maxBytes, files)
    ensures AdjacentExceed(maxBytes, Appended(maxBytes, count, files, text))
  {
    WrittenIsCountedPlusSurrogates(text);
    var after := Appended(maxBytes, count, files, text);
    forall i | 0 <= i < |after| - 1
      ensures |after[i]| + |after[i + 1]| > maxBytes
    {
      if after[0] == Written(text) && i > 0 && after[1..] == files[..|after| - 1] {
        assert after[i] == files[i - 1] && after[i + 1] == files[i];
      }
    }
  }

  ghost predicate Kept(maxBytes: int, count: nat, r: Run) {
    && r.history == r.lost + Content(r.files)
    && |r.files| <= count + 1 && (r.lost != [] ==> |r.files| == count + 1)
    && AdjacentExceed(maxBytes, r.files)
  }

  lemma Regroup(a: File, b: File, c: File, d: File, e: File)
    requires b + c == d + e
    ensures a + b + c == a + d + e
  {
    SeqAssoc(a, b, c);
    SeqAssoc(a, d, e);
  }

  lemma ThenKeeps(maxBytes: int, count: nat, r: Run, t: Text)
    requires count >= 1 && Kept(maxBytes, count, r)
    ensures Kept(maxBytes, count, Then(maxBytes, count, r, t))
  {
    AppendKeepsSuffix(maxBytes, count, r.files, t);
    AppendKeepsPairs(maxBytes, count, r.files, t);
    Regroup(r.lost, Content(r.files), Written(t), Dropped(maxBytes, count, r.files, t),
            Content(Appended(maxBytes, count, r.files, t)));
  }

  lemma {:induction false} PlayKeeps(maxBytes: int, count: nat, texts: seq<Text>)
    requires count >= 1
    ensures Kept(maxBytes, count, Play(maxBytes, count, texts))
    decreases |texts|
  {
    if texts != [] {
      PlayKeeps(maxBytes, count, texts[..|texts| - 1]);
      ThenKeeps(maxBytes, count, Play(maxBytes, count, texts[..|texts| - 1]), texts[|texts| - 1]);
    }
  }

  // Any 2k files in a row hold more than k times max_bytes.
  lemma {:induction false} PairsExceed(maxBytes: int, files: seq<File>, k: nat)
    requires AdjacentExceed(maxBytes, files) && 2 * k <= |files|
    ensures |Content(files)| >= k * maxBytes + k
    decreases k
  {
    if k > 0 {
      assert files[1..][0] == files[1] && files[1..][1..] == files[2..];
      assert |Content(files)| == |Content(files[2..])| + |files[1]| + |files[0]|;
      PairsExceed(maxBytes, files[2..], k - 1);
      assert k * maxBytes == (k - 1) * maxBytes + maxBytes;
    }
  }

  // Log retention, for every run from an empty directory with at least one backup: what can be read is a suffix of
  // everything appended, the file behind any other adds up with it to more than max_bytes, and once anything has been
  // dropped all files exist and more than floor((n + 1) / 2) * max_bytes bytes remain.
  lemma {:induction false} Retention(maxBytes: int, count: nat, texts: seq<Text>)
    requires count >= 1
    ensures var r := Play(maxBytes, count, texts);
      && r.history == r.lost + Content(r.files)
      && AdjacentExceed(maxBytes, r.files)
      && (r.lost != [] ==> |r.files| == count + 1 && |Content(r.files)| > (count + 1) / 2 * maxBytes)
  {
    PlayKeeps(maxBytes, count, texts);
    var r := Play(maxBytes, count, texts);
    if r.lost != [] {
      PairsExceed(maxBytes, r.files, (count + 1) / 2);
    }
  }

  ghost predicate AllAtMost(files: seq<File>, bound: int) {
    forall i :: 0 <= i < |files| ==> |files[i]| <= bound
  }

  lemma AppendKeepsSizes(maxBytes: int, count: nat, files: seq<File>, text: Text, largest: nat, surrogates: nat)
    requires |Written(text)| <= largest && Surrogates(text) <= surrogates
    requires AllAtMost(files, Max(maxBytes + surrogates, largest))
    ensures AllAtMost(Appended(maxBytes, count, files, text), Max(maxBytes + surrogates, largest))
  {
    WrittenIsCountedPlusSurrogates(text);
  }

  // No file exceeds the larger of max_bytes and the largest append, up to the lone surrogates of one append.
  lemma {:induction false} FileSizes(maxBytes: int, count: nat, texts: seq<Text>, largest: nat, surrogates: nat)
    requires forall i :: 0 <= i < |texts| ==> |Written(texts[i])| <= largest && Surrogates(texts[i]) <= surrogates
    ensures AllAtMost(Play(maxBytes, count, texts).files, Max(maxBytes + surrogates, largest))
    decreases |texts|
  {
    if texts != [] {
      var n := |texts| - 1;
      FileSizes(maxBytes, count, texts[..n], largest, surrogates);
      AppendKeepsSizes(maxBytes, count, Play(maxBytes, count, texts[..n]).files, texts[n], largest, surrogates);
    }
  }

  // ---- When the bound holds without the allowance ----

  // What can be checked of a text before it is appended: it has no lone surrogates, or it counts for a whole file.
  predicate Guarded(maxBytes: int, text: Text) {
    Surrogates(text) == 0 || Counted(text) >= maxBytes
  }

  // The append leaves no file above the larger of max_bytes and itself, whatever files within that there were.
  ghost predicate KeepsWithin(maxBytes: int, count: nat, text: Text) {
    forall files: seq<File> :: AllAtMost(files, Max(maxBytes, |Written(text)|)) ==>
      AllAtMost(Appended(maxBytes, count, files, text), Max(maxBytes, |Written(text)|))
  }

  lemma GuardedAppend(maxBytes: int, count: nat, files: seq<File>, text: Text, bound: int)
    requires Guarded(maxBytes, text) && bound >= maxBytes && bound >= |Written(text)| && AllAtMost(files, bound)
    ensures AllAtMost(Appended(maxBytes, count, files, text), bound)
  {
    WrittenIsCountedPlusSurrogates(text);
  }

  // A text that fills the current file up to the byte and is written longer than it counts.
  lemma UnguardedAppend(maxBytes: int, count: nat, current: File, text: Text)
    requires !Guarded(maxBytes, text) && |current| == maxBytes - Counted(text)
    ensures var after := Appended(maxBytes, count, [current], text);
      after != [] && |after[0]| > maxBytes && |after[0]| > |Written(text)|
  {
    WrittenIsCountedPlusSurrogates(text);
  }

  lemma {:induction false} KeepsWithinIffGuarded(maxBytes: int, count: nat, text: Text)
    ensures KeepsWithin(maxBytes, count, text) <==> Guarded(maxBytes, text)
  {
    var bound := Max(maxBytes, |Written(text)|);
    if Guarded(maxBytes, text) {
      forall files: seq<File> | AllAtMost(files, bound) ensures AllAtMost(Appended(maxBytes, count, files, text), bound) {
        GuardedAppend(maxBytes, count, files, text, bound);
      }
    } else {
      var current: File := seq(maxBytes - Counted(text), _ => 97);
      UnguardedAppend(maxBytes, count, current, text);
      assert AllAtMost([current], bound);
    }
  }

  function Largest(texts: seq<Text>): nat {
    if texts == [] then 0 else Max(Largest(texts[..|texts| - 1]), |Written(texts[|texts| - 1])|)
  }

  // No file exceeds the larger of max_bytes and the largest append.
  ghost predicate Within(maxBytes: int, count: nat, texts: seq<Text>) {
    AllAtMost(Play(maxBytes, count, texts).files, Max(maxBytes, Largest(texts)))
  }

  lemma {:induction false} GuardedRun(maxBytes: int, count: nat, texts: seq<Text>, bound: int)
    requires forall i :: 0 <= i < |texts| ==> Guarded(maxBytes, texts[i])
    requires bound >= maxBytes && bound >= Largest(texts)
    ensures AllAtMost(Play(maxBytes, count, texts).files, bound)
    decreases |texts|
  {
    if texts != [] {
      var n := |texts| - 1;
      GuardedRun(maxBytes, count, texts[..n], bound);
      GuardedAppend(maxBytes, count, Play(maxBytes, count, texts[..n]).files, texts[n], bound);
    }
  }

  function Filler(k: nat): Text {
    if k == 0 then [] else [Scalar([97])] + Filler(k - 1)
  }

  lemma {:induction false} FillerIsClean(k: nat)
    ensures |Filler(k)| == k && |Written(Filler(k))| == k == Counted(Filler(k)) && Surrogates(Filler(k)) == 0
  {
    if k > 0 {
      FillerIsClean(k - 1);
      assert Filler(k)[0] == Scalar([97]) && Filler(k)[1..] == Filler(k - 1);
    }
  }

  // Two appends that break the bound: a text without lone surrogates, and one that fills the rest of its file.
  lemma {:induction false} UnguardedRun(maxBytes: int, count: nat, text: Text)
    requires !Guarded(maxBytes, text)
    ensures !Within(maxBytes, count, [Filler(maxBytes - Counted(text)), text])
  {
    var first := Filler(maxBytes - Counted(text));
    FillerIsClean(maxBytes - Counted(text));
    var none: seq<Text>, single: seq<Text>, texts: seq<Text> := [], [first], [first, text];
    assert single[..0] == none && texts[..1] == single;
    assert Play(maxBytes, count, single) == Then(maxBytes, count, Play(maxBytes, count, none), first);
    assert first != [] && [] + Written(first) == Written(first);
    assert Play(maxBytes, count, single).files == [Written(first)];
    UnguardedAppend(maxBytes, count, Written(first), text);
    assert Play(maxBytes, count, texts) == Then(maxBytes, count, Play(maxBytes, count, single), text);
    assert Largest(texts) == Max(Largest(single), |Written(text)|) && Largest(single) == |Written(first)|;
  }

  // A byte and a lone surrogate fill a file of two bytes although max_bytes is one.
  lemma {:induction false} SurrogatesOverflow()
    ensures exists texts: seq<Text> ::
      (forall i :: 0 <= i < |texts| ==> |Written(texts[i])| <= 1) && !AllAtMost(Play(1, 1, texts).files, Max(1, 1))
  {
    var one: Text, none: Text := [Surrogate], [];
    assert one[1..] == none && Counted(one) == 0 && Surrogates(one) == 1 && Written(one) == [63] + Written(none);
    var first := Filler(1);
    FillerIsClean(1);
    var texts: seq<Text>, single: seq<Text> := [first, one], [first];
    UnguardedRun(1, 1, one);
    assert texts[..1] == single && Largest(texts) == Max(Largest(single), 1);
    assert single[..0] == [] && Largest(single) == 1;
  }

  // `text` any number of times among texts without lone surrogates.
  ghost predicate Among(texts: seq<Text>, text: Text) {
    forall i :: 0 <= i < |texts| ==> texts[i] == text || Surrogates(texts[i]) == 0
  }

  // The intended bound holds for whole runs, exactly for the texts that pass the guard: those can be appended any number
  // of times among others without lone surrogates, and for every other text there is a run that breaks the bound.
  lemma {:induction false} WithinIffGuarded(maxBytes: int, count: nat, text: Text)
    ensures (forall texts: seq<Text> :: Among(texts, text) ==> Within(maxBytes, count, texts)) <==> Guarded(maxBytes, text)
  {
    if Guarded(maxBytes, text) {
      forall texts: seq<Text> | Among(texts, text) ensures Within(maxBytes, count, texts) {
        GuardedRun(maxBytes, count, texts, Max(maxBytes, Largest(texts)));
      }
    } else {
      var first := Filler(maxBytes - Counted(text));
      var texts: seq<Text> := [first, text];
      FillerIsClean(maxBytes - Counted(text));
      UnguardedRun(maxBytes, count, text);
      assert Among(texts, text);
    }
  }

  // The class keeps to the list: the directory after any run of appends holds the files of Play.
  lemma {:induction false} DirsFollowPlay(maxBytes: int, count: nat, dirs: seq<Dir>, texts: seq<Text>)
    requires count >= 1 && |dirs| == |texts| + 1 && dirs[0] == Dir(None, map[])
    requires forall i :: 0 <= i < |texts| ==> IsAppend(maxBytes, count, dirs[i], dirs[i + 1], texts[i])
    ensures Holds(dirs[|texts|], Play(maxBytes, count, texts).files)
    decreases |texts|
  {
    if texts != [] {
      var n := |texts| - 1;
      DirsFollowPlay(maxBytes, count, dirs[..n + 1], texts[..n]);
      PlayKeeps(maxBytes, count, texts[..n]);
      AppendOnList(maxBytes, count, dirs[n], dirs[n + 1], Play(maxBytes, count, texts[..n]).files, texts[n]);
    }
  }

  // A backup count below 1 keeps one backup all the same.
  lemma OneBackupKept(maxBytes: int, count: int, a: Dir, b: Dir, files: seq<File>, text: Text)
    requires count < 1 && |files| <= 2 && Holds(a, files) && Numbered(a.backups, count) == None
    requires IsAppend(maxBytes, count, a, b, text)
    ensures Holds(b, Appended(maxBytes, 1, files, text)) && Numbered(b.backups, count) == None
  {
    if text != [] && Size(a.current) + Counted(text) <= maxBytes {
      WriteInPlace(a, files, b.current.value);
    } else if text != [] {
      var after := Appended(maxBytes, 1, files, text);
      forall i | i >= 1
        ensures Numbered(b.backups, i) == if i < |after| then Some(after[i]) else None
      {
        if i > 1 { assert Numbered(b.backups, i) == Numbered(a.backups, i); }
      }
    }
  }

  lemma {:induction false} CountBelowOneIsOne(maxBytes: int, count: int, dirs: seq<Dir>, texts: seq<Text>)
    requires count < 1 && |dirs| == |texts| + 1 && dirs[0] == Dir(None, map[])
    requires forall i :: 0 <= i < |texts| ==> IsAppend(maxBytes, count, dirs[i], dirs[i + 1], texts[i])
    ensures Holds(dirs[|texts|], Play(maxBytes, 1, texts).files) && Numbered(dirs[|texts|].backups, count) == None
    decreases |texts|
  {
    if texts != [] {
      var n := |texts| - 1;
      CountBelowOneIsOne(maxBytes, count, dirs[..n + 1], texts[..n]);
      PlayKeeps(maxBytes, 1, texts[..n]);
      OneBackupKept(maxBytes, count, dirs[n], dirs[n + 1], Play(maxBytes, 1, texts[..n]).files, texts[n]);
    }
  }
}
