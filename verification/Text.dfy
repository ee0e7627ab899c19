// The few operations on Python strings that the components use.
module Text {

  // A whitespace character, as str.strip() and str.split() see it.
  predicate IsSpace(c: char) {
    c in {' ', '\U{0085}', '\U{00A0}', '\U{1680}', '\U{2028}', '\U{2029}', '\U{202F}', '\U{205F}', '\U{3000}'} ||
    '\U{0009}' <= c <= '\U{000D}' || '\U{001C}' <= c <= '\U{001F}' || '\U{2000}' <= c <= '\U{200A}'
  }

  predicate IsBlank(s: string) {
    forall i :: 0 <= i < |s| ==> IsSpace(s[i])
  }

  function RStrip(s: string): string {
    if s != "" && IsSpace(s[|s| - 1]) then RStrip(s[..|s| - 1]) else s
  }

  function LStrip(s: string): string {
    if s != "" && IsSpace(s[0]) then LStrip(s[1..]) else s
  }

  function Strip(s: string): string { LStrip(RStrip(s)) }

  lemma {:induction false} RStripBlank(s: string)
    ensures RStrip(s) == "" <==> IsBlank(s)
  {
    if s != "" && IsSpace(s[|s| - 1]) {
      RStripBlank(s[..|s| - 1]);
      assert s == s[..|s| - 1] + [s[|s| - 1]];
    }
  }

  // Stripping takes whitespace off both ends and nothing else.
  lemma {:induction false} RStripIs(s: string)
    ensures RStrip(s) <= s && IsBlank(s[|RStrip(s)|..])
    ensures RStrip(s) != "" ==> !IsSpace(RStrip(s)[|RStrip(s)| - 1])
  {
    if s != "" && IsSpace(s[|s| - 1]) {
      RStripIs(s[..|s| - 1]);
      var k := |RStrip(s)|;
      assert s[k..] == s[..|s| - 1][k..] + [s[|s| - 1]];
    }
  }

  lemma {:induction false} LStripIs(s: string)
    ensures var k := |s| - |LStrip(s)|; 0 <= k <= |s| && s[k..] == LStrip(s) && IsBlank(s[..k])
    ensures LStrip(s) != "" ==> !IsSpace(LStrip(s)[0])
  {
    if s != "" && IsSpace(s[0]) {
      LStripIs(s[1..]);
      var k := |s| - |LStrip(s)|;
      assert s[..k] == [s[0]] + s[1..][..k - 1];
    }
  }

  lemma {:induction false} StripIs(s: string)
    ensures exists a, b :: s == a + Strip(s) + b && IsBlank(a) && IsBlank(b)
    ensures Strip(s) != "" ==> !IsSpace(Strip(s)[0]) && !IsSpace(Strip(s)[|Strip(s)| - 1])
    ensures Strip(s) == "" <==> IsBlank(s)
  {
    RStripIs(s);
    RStripBlank(s);
    LStripIs(RStrip(s));
    var r := RStrip(s);
    var a, b := r[..|r| - |Strip(s)|], s[|r|..];
    assert s == r + b && r == a + Strip(s);
    assert s == a + Strip(s) + b;
    if Strip(s) == "" {
      assert s == a + b;
    } else {
      assert Strip(s)[|Strip(s)| - 1] == r[|r| - 1];
      assert s[|a|] == Strip(s)[0];
    }
  }

  // `sep.join(parts)`
  function Join(sep: string, parts: seq<string>): string {
    if parts == [] then "" else if |parts| == 1 then parts[0] else parts[0] + sep + Join(sep, parts[1..])
  }

  // `s.split()`, after the characters of `word` have been read.
  function Words(word: string, s: string): seq<string>
    decreases |s|
  {
    if s == "" then (if word == "" then [] else [word])
    else if IsSpace(s[0]) then (if word == "" then [] else [word]) + Words("", s[1..])
    else Words(word + [s[0]], s[1..])
  }

  // The words of a text are told by where its whitespace is: whitespace separates, and without any there is one word.
  lemma {:induction false} WordsSplit(word: string, a: string, c: char, b: string)
    requires IsSpace(c)
    ensures Words(word, a + [c] + b) == Words(word, a) + Words("", b)
    decreases |a|
  {
    var s := a + [c] + b;
    if a == "" {
      assert s[0] == c && s[1..] == b;
    } else {
      assert s[0] == a[0] && s[1..] == a[1..] + [c] + b;
      if IsSpace(a[0]) {
        WordsSplit("", a[1..], c, b);
        var first: seq<string> := if word == "" then [] else [word];
        assert first + (Words("", a[1..]) + Words("", b)) == first + Words("", a[1..]) + Words("", b);
      } else {
        WordsSplit(word + [a[0]], a[1..], c, b);
      }
    }
  }

  predicate NoSpace(s: string) { forall i :: 0 <= i < |s| ==> !IsSpace(s[i]) }

  lemma {:induction false} WordsOfWord(word: string, s: string)
    requires NoSpace(s)
    ensures Words(word, s) == if word + s == "" then [] else [word + s]
    decreases |s|
  {
    if s != "" {
      WordsOfWord(word + [s[0]], s[1..]);
      assert word + [s[0]] + s[1..] == word + s;
    } else {
      assert word + s == word;
    }
  }

  // Words put together with spaces come apart again, so that doing both leaves single spaces between the same words.
  lemma {:induction false} WordsOfJoin(words: seq<string>)
    requires forall i :: 0 <= i < |words| ==> words[i] != "" && NoSpace(words[i])
    ensures Words("", Join(" ", words)) == words
  {
    if |words| == 1 {
      WordsOfWord("", words[0]);
      assert "" + words[0] == words[0];
    } else if |words| > 1 {
      var rest := Join(" ", words[1..]);
      WordsOfJoin(words[1..]);
      WordsSplit("", words[0], ' ', rest);
      WordsOfWord("", words[0]);
      assert Join(" ", words) == words[0] + [' '] + rest && "" + words[0] == words[0];
      assert words == [words[0]] + words[1..];
    }
  }

  lemma {:induction false} WordsAreWords(word: string, s: string)
    requires NoSpace(word)
    ensures forall i :: 0 <= i < |Words(word, s)| ==> Words(word, s)[i] != "" && NoSpace(Words(word, s)[i])
    decreases |s|
  {
    if s != "" {
      WordsAreWords(if IsSpace(s[0]) then "" else word + [s[0]], s[1..]);
    }
  }

  // The order of strings by code points.
  predicate Precedes(a: string, b: string) {
    b != "" && (a == "" || a[0] < b[0] || (a[0] == b[0] && Precedes(a[1..], b[1..])))
  }

  lemma {:induction false} PrecedesIsStrict(a: string, b: string)
    ensures !(Precedes(a, b) && Precedes(b, a)) && (a == b <==> !Precedes(a, b) && !Precedes(b, a))
  {
    if a != "" && b != "" {
      PrecedesIsStrict(a[1..], b[1..]);
      assert a == [a[0]] + a[1..] && b == [b[0]] + b[1..];
    }
  }

  lemma {:induction false} PrecedesIsTransitive(a: string, b: string, c: string)
    requires Precedes(a, b) && Precedes(b, c)
    ensures Precedes(a, c)
  {
    if a != "" && a[0] == b[0] == c[0] {
      PrecedesIsTransitive(a[1..], b[1..], c[1..]);
    }
  }

  predicate IsDigit(c: char) { '0' <= c <= '9' }

  function Digit(n: nat): char
    requires n < 10
  {
    "0123456789"[n]
  }

  // The decimal form of a natural number.
  function Decimal(n: nat): string {
    if n < 10 then [Digit(n)] else Decimal(n / 10) + [Digit(n % 10)]
  }

  function DigitValue(c: char): (n: nat)
    requires IsDigit(c)
    ensures n < 10
  {
    c as int - '0' as int
  }

  predicate AllDigits(s: string) {
    forall i :: 0 <= i < |s| ==> IsDigit(s[i])
  }

  // The number that a string of digits denotes.
  function Number(s: string): nat
    requires AllDigits(s)
  {
    if s == "" then 0 else 10 * Number(s[..|s| - 1]) + DigitValue(s[|s| - 1])
  }

  lemma LastDigit(s: string, d: nat)
    requires AllDigits(s) && d < 10
    ensures AllDigits(s + [Digit(d)]) && Number(s + [Digit(d)]) == 10 * Number(s) + d
  {
    assert (s + [Digit(d)])[..|s|] == s;
  }

  lemma {:induction false} NumberOfDecimal(n: nat)
    ensures Decimal(n) != "" && AllDigits(Decimal(n)) && Number(Decimal(n)) == n
  {
    if n >= 10 {
      NumberOfDecimal(n / 10);
      LastDigit(Decimal(n / 10), n % 10);
    }
  }
}
