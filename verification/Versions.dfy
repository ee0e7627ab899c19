// Component versions (shared/component_versions.py): parsing, comparing, and the record of what was applied.
module Versions {
  import opened Common
  import opened Text

  // The maximal runs of digits of a string, after the digits of `run` have been read.
  function DigitRuns(run: string, s: string): seq<string>
    decreases |s|
  {
    if s == "" then (if run == "" then [] else [run])
    else if IsDigit(s[0]) then DigitRuns(run + [s[0]], s[1..])
    else (if run == "" then [] else [run]) + DigitRuns("", s[1..])
  }

  lemma {:induction false} RunsAreDigits(run: string, s: string)
    requires AllDigits(run)
    ensures forall i :: 0 <= i < |DigitRuns(run, s)| ==> DigitRuns(run, s)[i] != "" && AllDigits(DigitRuns(run, s)[i])
    decreases |s|
  {
    if s != "" {
      RunsAreDigits(if IsDigit(s[0]) then run + [s[0]] else "", s[1..]);
    }
  }

  function Numbers(runs: seq<string>): (ns: seq<nat>)
    requires forall i :: 0 <= i < |runs| ==> AllDigits(runs[i])
    ensures |ns| == |runs|
  {
    if runs == [] then [] else [Number(runs[0])] + Numbers(runs[1..])
  }

  function Parse(v: string): (ns: seq<nat>)
    ensures ns != []
  {
    RunsAreDigits("", v);
    if DigitRuns("", v) == [] then [0] else Numbers(DigitRuns("", v))
  }

  // int() raises ValueError on longer runs of digits, in the versions of Python that have the limit.
  const MAX_DIGITS: nat := 4300

  function Longest(runs: seq<string>): nat {
    if runs == [] then 0 else Max(|runs[0]|, Longest(runs[1..]))
  }

  lemma {:induction false} LongestIs(runs: seq<string>, n: nat)
    ensures Longest(runs) <= n <==> forall i :: 0 <= i < |runs| ==> |runs[i]| <= n
  {
    if runs != [] {
      LongestIs(runs[1..], n);
      assert forall i :: 1 <= i < |runs| ==> runs[i] == runs[1..][i - 1];
    }
  }

  predicate Readable(v: string) { Longest(DigitRuns("", v)) <= MAX_DIGITS }

  // _parse_version; None when it raises.
  function TryParse(v: string): Option<seq<nat>> {
    if Readable(v) then Some(Parse(v)) else None
  }

  // Python's order on tuples.
  predicate Less(a: seq<nat>, b: seq<nat>) {
    b != [] && (a == [] || a[0] < b[0] || (a[0] == b[0] && Less(a[1..], b[1..])))
  }

  predicate IsIncreased(newV: string, oldV: string) { Less(Parse(oldV), Parse(newV)) }

  // ---- Round trip ----

  function Decimals(ns: seq<nat>): seq<string> {
    if ns == [] then [] else [Decimal(ns[0])] + Decimals(ns[1..])
  }

  function Dotted(ns: seq<nat>): string { Join(".", Decimals(ns)) }

  // Reading digits only extends the current run.
  lemma {:induction false} ReadDigits(run: string, digits: string, rest: string)
    requires AllDigits(digits)
    ensures DigitRuns(run, digits + rest) == DigitRuns(run + digits, rest)
    decreases |digits|
  {
    if digits == "" {
      assert digits + rest == rest && run + digits == run;
    } else {
      ReadDigits(run + [digits[0]], digits[1..], rest);
      assert (digits + rest)[1..] == digits[1..] + rest;
      assert run + [digits[0]] + digits[1..] == run + digits;
    }
  }

  lemma ReadNumber(d: string, rest: string)
    requires d != "" && AllDigits(d)
    ensures DigitRuns("", d) == [d]
    ensures DigitRuns("", d + ("." + rest)) == [d] + DigitRuns("", rest)
  {
    assert "" + d == d && d + "" == d;
    ReadDigits("", d, "");
    ReadDigits("", d, "." + rest);
    assert ("." + rest)[1..] == rest;
  }

  lemma {:induction false} RunsOfJoin(parts: seq<string>)
    requires parts != [] && forall i :: 0 <= i < |parts| ==> parts[i] != "" && AllDigits(parts[i])
    ensures DigitRuns("", Join(".", parts)) == parts
    decreases |parts|
  {
    if |parts| == 1 {
      ReadNumber(parts[0], "");
    } else {
      var rest := Join(".", parts[1..]);
      RunsOfJoin(parts[1..]);
      ReadNumber(parts[0], rest);
      assert Join(".", parts) == parts[0] + ("." + rest);
      assert parts == [parts[0]] + parts[1..];
    }
  }

  lemma {:induction false} NumbersOfDecimals(ns: seq<nat>)
    ensures |Decimals(ns)| == |ns| && forall i :: 0 <= i < |ns| ==> Decimals(ns)[i] != "" && AllDigits(Decimals(ns)[i])
    ensures Numbers(Decimals(ns)) == ns
  {
    if ns != [] {
      NumberOfDecimal(ns[0]);
      NumbersOfDecimals(ns[1..]);
      assert Decimals(ns)[1..] == Decimals(ns[1..]);
    }
  }

  function Power10(k: nat): nat {
    if k == 0 then 1 else 10 * Power10(k - 1)
  }

  lemma {:induction false} DecimalLength(n: nat, k: nat)
    requires k >= 1
    ensures |Decimal(n)| <= k <==> n < Power10(k)
  {
    if k == 1 {
      assert Power10(1) == 10 * Power10(0);
    } else if n >= 10 {
      DecimalLength(n / 10, k - 1);
    } else {
      DecimalLength(n, k - 1);
    }
  }

  lemma {:induction false} DecimalsAre(ns: seq<nat>, i: nat)
    requires i < |ns|
    ensures |Decimals(ns)| == |ns| && Decimals(ns)[i] == Decimal(ns[i])
  {
    NumbersOfDecimals(ns);
    if i > 0 { DecimalsAre(ns[1..], i - 1); }
  }

  // Parsing the dotted decimal form of a non-empty list of naturals gives the list back if and only if each of them has
  // at most 4300 digits; for a longer one it raises.
  lemma {:induction false} ParseDotted(ns: seq<nat>)
    requires ns != []
    ensures Parse(Dotted(ns)) == ns
    ensures TryParse(Dotted(ns)) == Some(ns) <==> forall i :: 0 <= i < |ns| ==> ns[i] < Power10(MAX_DIGITS)
  {
    NumbersOfDecimals(ns);
    RunsOfJoin(Decimals(ns));
    LongestIs(Decimals(ns), MAX_DIGITS);
    forall i | 0 <= i < |ns| ensures |Decimals(ns)[i]| <= MAX_DIGITS <==> ns[i] < Power10(MAX_DIGITS) {
      DecimalsAre(ns, i);
      DecimalLength(ns[i], MAX_DIGITS);
    }
  }

  // ---- Order ----

  lemma {:induction false} LessIsStrict(a: seq<nat>, b: seq<nat>)
    ensures !(Less(a, b) && Less(b, a)) && (a == b <==> !Less(a, b) && !Less(b, a))
  {
    if a != [] && b != [] {
      LessIsStrict(a[1..], b[1..]);
      assert a == [a[0]] + a[1..] && b == [b[0]] + b[1..];
    }
  }

  lemma {:induction false} LessIsTransitive(a: seq<nat>, b: seq<nat>, c: seq<nat>)
    requires Less(a, b) && Less(b, c)
    ensures Less(a, c)
  {
    if a != [] && a[0] == b[0] == c[0] {
      LessIsTransitive(a[1..], b[1..], c[1..]);
    }
  }

  // is_increased is a strict weak order: irreflexive, asymmetric, transitive, and two versions of which neither
  // increases the other are exactly those that parse alike (so being tied is an equivalence).
  lemma IncreasedIsStrictWeakOrder(u: string, v: string, w: string)
    ensures !IsIncreased(v, v)
    ensures !(IsIncreased(u, v) && IsIncreased(v, u))
    ensures IsIncreased(u, v) && IsIncreased(v, w) ==> IsIncreased(u, w)
    ensures !IsIncreased(u, v) && !IsIncreased(v, u) <==> Parse(u) == Parse(v)
  {
    LessIsStrict(Parse(v), Parse(v));
    LessIsStrict(Parse(u), Parse(v));
    if IsIncreased(u, v) && IsIncreased(v, w) {
      LessIsTransitive(Parse(w), Parse(v), Parse(u));
    }
  }

  // The two agree below k, where the first ends or has the smaller number.
  ghost predicate LessAt(a: seq<nat>, b: seq<nat>, k: nat) {
    k <= |a| && k < |b| && a[..k] == b[..k] && (k == |a| || a[k] < b[k])
  }

  lemma {:induction false} LessIff(a: seq<nat>, b: seq<nat>)
    ensures Less(a, b) <==> exists k: nat :: LessAt(a, b, k)
  {
    if a == [] || b == [] || a[0] != b[0] {
      assert Less(a, b) ==> LessAt(a, b, 0);
      assert forall k: nat :: LessAt(a, b, k) && k > 0 ==> a[..k][0] == b[..k][0];
    } else {
      LessIff(a[1..], b[1..]);
      if k: nat :| LessAt(a[1..], b[1..], k) {
        assert a[..k + 1] == [a[0]] + a[1..][..k] && b[..k + 1] == [b[0]] + b[1..][..k];
        assert LessAt(a, b, k + 1);
      }
      if k: nat :| LessAt(a, b, k) {
        assert k > 0 && a[1..][..k - 1] == a[..k][1..] && b[1..][..k - 1] == b[..k][1..];
        assert LessAt(a[1..], b[1..], k - 1);
      }
    }
  }

  // One version increases another when, after numbers that they share, its number is the larger or the other's have ended.
  lemma {:induction false} IncreasedIff(newV: seq<nat>, oldV: seq<nat>)
    requires newV != [] && oldV != []
    ensures IsIncreased(Dotted(newV), Dotted(oldV)) <==>
      exists k: nat :: LessAt(oldV, newV, k)
  {
    ParseDotted(newV);
    ParseDotted(oldV);
    LessIff(oldV, newV);
  }

  // The numbers of a version are told by where its digits are: anything else separates, and digits alone are one number.
  lemma {:induction false} RunsSplit(run: string, a: string, c: char, b: string)
    requires !IsDigit(c)
    ensures DigitRuns(run, a + [c] + b) == DigitRuns(run, a) + DigitRuns("", b)
    decreases |a|
  {
    var s := a + [c] + b;
    if a == "" {
      assert s[0] == c && s[1..] == b;
    } else {
      assert s[0] == a[0] && s[1..] == a[1..] + [c] + b;
      if IsDigit(a[0]) {
        RunsSplit(run + [a[0]], a[1..], c, b);
      } else {
        RunsSplit("", a[1..], c, b);
        Assoc(if run == "" then [] else [run], DigitRuns("", a[1..]), DigitRuns("", b));
      }
    }
  }

  lemma {:induction false} RunsOfDigits(d: string)
    requires AllDigits(d)
    ensures DigitRuns("", d) == if d == "" then [] else [d]
  {
    assert "" + d == d && d + "" == d;
    ReadDigits("", d, "");
  }

  lemma {:induction false} ParseTells(v: string)
    ensures Parse(v) == if DigitRuns("", v) == [] then [0] else
              (RunsAreDigits("", v); seq(|DigitRuns("", v)|, i requires 0 <= i < |DigitRuns("", v)| => Number(DigitRuns("", v)[i])))
  {
    RunsAreDigits("", v);
    NumbersAre(DigitRuns("", v));
  }

  lemma {:induction false} NumbersAre(runs: seq<string>)
    requires forall i :: 0 <= i < |runs| ==> AllDigits(runs[i])
    ensures Numbers(runs) == seq(|runs|, i requires 0 <= i < |runs| => Number(runs[i]))
  {
    if runs != [] {
      NumbersAre(runs[1..]);
    }
  }

  // ---- The applied versions ----

  const COMPONENTS := ["agent", "sheriff", "secrets"]
  const ZERO := "0.0.0"

  type Versions = map<string, string>

  function VersionOf(vs: Versions, key: string): string {
    if key in vs then vs[key] else ZERO
  }

  // What load_target_versions and load_applied_versions make of a file: None when it is missing or unreadable.
  function Loaded(file: Option<Versions>): Versions {
    map key | key in COMPONENTS :: if file.Some? then VersionOf(file.value, key) else ZERO
  }

  datatype Change = Change(from: string, to: string, increased: bool)

  function ChangeOf(target: Versions, applied: Versions, key: string): Change {
    var prev, next := VersionOf(applied, key), VersionOf(target, key);
    Change(prev, next, IsIncreased(next, prev))
  }

  // The comparison of a component raises.
  predicate Unreadable(target: Versions, applied: Versions, key: string) {
    !Readable(VersionOf(target, key)) || !Readable(VersionOf(applied, key))
  }

  // The comparison of a component; None when it raises.
  function Compared(target: Versions, applied: Versions, key: string): Option<Change> {
    if Unreadable(target, applied, key) then None else Some(ChangeOf(target, applied, key))
  }

  // The loop of diff_versions; None when a comparison raises.
  method DiffOf(keys: seq<string>, compare: string -> Option<Change>) returns (out: Option<map<string, Change>>)
    ensures out == Tabulate(keys, compare)
  {
    var changes: map<string, Change> := map[];
    var i := 0;
    while i < |keys|
      invariant 0 <= i <= |keys| && Tabulate(keys[..i], compare) == Some(changes)
    {
      assert keys[..i + 1][..i] == keys[..i];
      var change := compare(keys[i]);
      if change.None? {
        TabulateStops(keys, i + 1, compare);
        return None;
      }
      changes := changes[keys[i] := change.value];
      i := i + 1;
    }
    assert keys[..i] == keys;
    out := Some(changes);
  }

  method DiffVersions(target: Versions, applied: Versions) returns (out: Option<map<string, Change>>)
    ensures out.None? <==> exists key :: key in COMPONENTS && Unreadable(target, applied, key)
    ensures out.Some? ==> forall key :: key in out.value <==> key in COMPONENTS
    ensures out.Some? ==> forall key :: key in COMPONENTS ==> out.value[key] == ChangeOf(target, applied, key)
  {
    var compare := (key: string) => Compared(target, applied, key);
    out := DiffOf(COMPONENTS, compare);
    TabulateIs(COMPONENTS, compare);
    ComparesComponents(target, applied, compare);
  }

  lemma ComparesComponents(target: Versions, applied: Versions, compare: string -> Option<Change>)
    requires forall key :: compare(key) == Compared(target, applied, key)
    ensures forall key :: compare(key).None? <==> Unreadable(target, applied, key)
    ensures forall key :: compare(key).Some? ==> compare(key).value == ChangeOf(target, applied, key)
  {
  }

  // What a comparison tells of a component: the version applied, the one to be applied, and whether that is an increase.
  lemma {:induction false} ChangeTells(target: Versions, applied: Versions, key: string)
    ensures var from, to := if key in applied then applied[key] else "0.0.0", if key in target then target[key] else "0.0.0";
      ChangeOf(target, applied, key) == Change(from, to, Less(Parse(from), Parse(to)))
    ensures key in COMPONENTS <==> key == "agent" || key == "sheriff" || key == "secrets"
  {
  }

  class AppliedVersions {
    var file: Option<Versions>

    constructor ()
      ensures file == None
    {
      file := None;
    }

    method Save(versions: Versions)
      modifies this
      ensures file == Some(versions)
    {
      file := Some(versions);
    }

    method Load() returns (vs: Versions)
      ensures vs == Loaded(file)
      ensures vs.Keys == set key | key in COMPONENTS
      ensures forall key :: key in COMPONENTS ==>
                vs[key] == if file.Some? && key in file.value then file.value[key] else "0.0.0"
      ensures vs.Keys == {"agent", "sheriff", "secrets"}
    {
      vs := map key | key in COMPONENTS :: if file.Some? then VersionOf(file.value, key) else ZERO;
    }
  }

  // After the target has been saved as applied, no component shows as increased, whatever keys the target lacks; the
  // comparison raises exactly when a version of the target cannot be read.
  method SaveThenDiff(store: AppliedVersions, target: Versions) returns (out: Option<map<string, Change>>)
    modifies store
    ensures out.None? <==> exists key :: key in COMPONENTS && !Readable(VersionOf(target, key))
    ensures out.Some? ==> forall key :: key in COMPONENTS ==>
              key in out.value && !out.value[key].increased && out.value[key].from == out.value[key].to
  {
    store.Save(target);
    var applied := store.Load();
    out := DiffVersions(target, applied);
    forall key | key in COMPONENTS
      ensures Unreadable(target, applied, key) <==> !Readable(VersionOf(target, key))
      ensures !ChangeOf(target, applied, key).increased
    {
      IncreasedIsStrictWeakOrder(VersionOf(target, key), VersionOf(target, key), VersionOf(target, key));
    }
  }
}
