/** Splitting text into words and lines, and joining words with single spaces. */
module Words {

  /** The characters Python's `str.split()` separates at. */
  predicate IsSpace(c: char) {
    var n := c as int;
    || 0x09 <= n <= 0x0d || 0x1c <= n <= 0x20 || n == 0x85 || n == 0xa0 || n == 0x1680
    || 0x2000 <= n <= 0x200a || n == 0x2028 || n == 0x2029 || n == 0x202f || n == 0x205f || n == 0x3000
  }

  /** The characters `str.splitlines()` breaks at. */
  predicate IsBreak(c: char) {
    var n := c as int;
    0x0a <= n <= 0x0d || 0x1c <= n <= 0x1e || n == 0x85 || n == 0x2028 || n == 0x2029
  }

  predicate IsWord(w: string) {
    w != "" && forall i :: 0 <= i < |w| ==> !IsSpace(w[i])
  }

  /** The length of the longest prefix without white space. */
  function WordEnd(s: string): (n: nat)
    ensures n <= |s| && (forall i :: 0 <= i < n ==> !IsSpace(s[i])) && (n < |s| ==> IsSpace(s[n]))
  {
    if s == "" || IsSpace(s[0]) then 0 else 1 + WordEnd(s[1..])
  }

  /** `str.split()`: the maximal runs of non-space characters, in order. */
  function Split(s: string): (ws: seq<string>)
    ensures forall k :: 0 <= k < |ws| ==> IsWord(ws[k])
    decreases |s|
  {
    if s == "" then []
    else if IsSpace(s[0]) then Split(s[1..])
    else [s[..WordEnd(s)]] + Split(s[WordEnd(s)..])
  }

  /** `" ".join(words)`. */
  function Join(ws: seq<string>): string {
    if ws == [] then ""
    else if |ws| == 1 then ws[0]
    else ws[0] + " " + Join(ws[1..])
  }

  /** The number of leading white-space characters. */
  function SkipSpace(s: string): (n: nat)
    ensures n <= |s|
  {
    if s == "" || !IsSpace(s[0]) then 0 else 1 + SkipSpace(s[1..])
  }

  /** The length of `s` without trailing white space. */
  function TrimmedLength(s: string): (n: nat)
    ensures n <= |s|
  {
    if s == "" || !IsSpace(s[|s| - 1]) then |s| else TrimmedLength(s[..|s| - 1])
  }

  /** `str.strip()`. */
  function Strip(s: string): string {
    var kept := s[..TrimmedLength(s)];
    kept[SkipSpace(kept)..]
  }

  lemma {:induction false} SkipSpaceFacts(s: string)
    ensures var n := SkipSpace(s); (forall i :: 0 <= i < n ==> IsSpace(s[i])) && (n < |s| ==> !IsSpace(s[n]))
  {
    if s != "" && IsSpace(s[0]) {
      SkipSpaceFacts(s[1..]);
    }
  }

  lemma {:induction false} TrimmedLengthFacts(s: string)
    ensures var n := TrimmedLength(s); (forall i :: n <= i < |s| ==> IsSpace(s[i])) && (n > 0 ==> !IsSpace(s[n - 1]))
  {
    if s != "" && IsSpace(s[|s| - 1]) {
      TrimmedLengthFacts(s[..|s| - 1]);
    }
  }

  /** `t` is `s` from `a` on, and everything of `s` around it is white space. */
  ghost predicate TrimmedAt(s: string, t: string, a: nat) {
    && a + |t| <= |s| && t == s[a..a + |t|]
    && (forall i :: 0 <= i < a ==> IsSpace(s[i])) && (forall i :: a + |t| <= i < |s| ==> IsSpace(s[i]))
  }

  /** Stripping cuts white space only, and leaves none at either end. */
  lemma StripFacts(s: string) returns (a: nat)
    ensures TrimmedAt(s, Strip(s), a)
    ensures Strip(s) != "" ==> !IsSpace(Strip(s)[0]) && !IsSpace(Strip(s)[|Strip(s)| - 1])
    ensures Strip(s) == "" <==> forall i :: 0 <= i < |s| ==> IsSpace(s[i])
  {
    var n := TrimmedLength(s);
    var kept := s[..n];
    a := SkipSpace(kept);
    TrimmedLengthFacts(s);
    SkipSpaceFacts(kept);
    assert forall i :: 0 <= i < n ==> kept[i] == s[i];
    assert kept[a..] == s[a..n];
    if a < n {
      assert Strip(s)[0] == s[a] && Strip(s)[n - a - 1] == s[n - 1];
    }
  }

  lemma StripOfTrimmed(s: string)
    requires s != "" && !IsSpace(s[0]) && !IsSpace(s[|s| - 1])
    ensures Strip(s) == s
  {
    assert s[..|s|] == s && s[0..] == s;
  }

  /** `str.splitlines()`: a carriage return before a line feed counts with it as one break. */
  function SplitLines(s: string): seq<string>
    decreases |s|
  {
    if s == "" then []
    else
      var n := LineEnd(s);
      if n == |s| then [s]
      else [s[..n]] + SplitLines(s[n + BreakLength(s[n..])..])
  }

  function LineEnd(s: string): (n: nat)
    ensures n <= |s| && (n < |s| ==> IsBreak(s[n]))
  {
    if s == "" || IsBreak(s[0]) then 0 else 1 + LineEnd(s[1..])
  }

  ghost predicate Unbroken(s: string) {
    forall i :: 0 <= i < |s| ==> !IsBreak(s[i])
  }

  /** These are the lines of `s`: what stands before, between and after its breaks, a last empty one left out. A
      carriage return and the line feed after it are one break. */
  ghost predicate AreLines(s: string, lines: seq<string>)
    decreases |lines|
  {
    if s == "" then lines == []
    else
      && lines != [] && lines[0] <= s && Unbroken(lines[0])
      && var n := |lines[0]|;
         if n == |s| then lines == [s]
         else
           && IsBreak(s[n])
           && AreLines(s[n + if s[n] == '\r' && n + 1 < |s| && s[n + 1] == '\n' then 2 else 1..], lines[1..])
  }

  lemma {:induction false} LineEndIsFirst(s: string)
    ensures Unbroken(s[..LineEnd(s)])
  {
    if s != "" && !IsBreak(s[0]) {
      LineEndIsFirst(s[1..]);
      var n := LineEnd(s[1..]);
      assert forall i :: 0 < i <= n ==> s[i] == s[1..][..n][i - 1];
    }
  }

  lemma BreakLengthAt(s: string, n: nat)
    requires n < |s| && IsBreak(s[n])
    ensures BreakLength(s[n..]) == if s[n] == '\r' && n + 1 < |s| && s[n + 1] == '\n' then 2 else 1
  {
    var tail := s[n..];
    assert tail[0] == s[n] && (|tail| > 1 ==> tail[1] == s[n + 1]);
  }

  lemma {:induction false} SplitLinesAreLines(s: string)
    ensures AreLines(s, SplitLines(s))
    decreases |s|
  {
    if s != "" {
      var n := LineEnd(s);
      LineEndIsFirst(s);
      if n < |s| {
        var m := BreakLength(s[n..]);
        BreakLengthAt(s, n);
        SplitLinesAreLines(s[n + m..]);
        LineFirst(s, n, m, SplitLines(s[n + m..]));
      } else {
        assert s[..n] == s;
      }
    }
  }

  lemma LineFirst(s: string, n: nat, m: nat, later: seq<string>)
    requires n < |s| && Unbroken(s[..n]) && IsBreak(s[n]) && n + m <= |s| && AreLines(s[n + m..], later)
    requires m == if s[n] == '\r' && n + 1 < |s| && s[n + 1] == '\n' then 2 else 1
    ensures AreLines(s, [s[..n]] + later)
  {
    assert ([s[..n]] + later)[1..] == later;
  }

  function BreakLength(s: string): (n: nat)
    requires s != "" && IsBreak(s[0])
    ensures 1 <= n <= 2 && n <= |s| && IsBreak(s[n - 1])
  {
    if s[0] == '\r' && |s| > 1 && s[1] == '\n' then 2 else 1
  }

  ghost function Concat<T>(parts: seq<seq<T>>): seq<T> {
    if parts == [] then [] else parts[0] + Concat(parts[1..])
  }

  lemma {:induction false} ConcatSnoc<T>(parts: seq<seq<T>>, part: seq<T>)
    ensures Concat(parts + [part]) == Concat(parts) + part
  {
    if parts == [] {
      assert [] + [part] == [part] && Concat([part]) == part + Concat<T>([]);
    } else {
      ConcatSnoc(parts[1..], part);
      assert (parts + [part])[1..] == parts[1..] + [part];
    }
  }

  ghost function WordsOf(texts: seq<string>): seq<string> {
    if texts == [] then [] else Split(texts[0]) + WordsOf(texts[1..])
  }

  lemma {:induction false} WordEndConcat(a: string, b: string)
    requires b == "" || IsSpace(b[0])
    ensures WordEnd(a + b) == WordEnd(a)
  {
    if a != "" && !IsSpace(a[0]) {
      assert (a + b)[1..] == a[1..] + b;
      WordEndConcat(a[1..], b);
    } else {
      assert a == "" ==> a + b == b;
    }
  }

  /** Cutting a text at white space cuts its words there. */
  lemma {:induction false} SplitAtSpace(a: string, b: string)
    requires b == "" || IsSpace(b[0])
    ensures Split(a + b) == Split(a) + Split(b)
    decreases |a|
  {
    if a == "" {
      assert a + b == b;
    } else if IsSpace(a[0]) {
      assert (a + b)[1..] == a[1..] + b;
      SplitAtSpace(a[1..], b);
    } else {
      var n := WordEnd(a);
      SplitFirst(a, b);
      SplitAtSpace(a[n..], b);
      assert ([a[..n]] + Split(a[n..])) + Split(b) == [a[..n]] + (Split(a[n..]) + Split(b));
    }
  }

  lemma SplitUnfold(s: string)
    requires s != "" && !IsSpace(s[0])
    ensures WordEnd(s) > 0 && Split(s) == [s[..WordEnd(s)]] + Split(s[WordEnd(s)..])
  {
  }

  lemma TakeDrop(a: string, b: string, n: nat)
    requires n <= |a|
    ensures (a + b)[..n] == a[..n] && (a + b)[n..] == a[n..] + b
  {
  }

  lemma SplitFirst(a: string, b: string)
    requires (b == "" || IsSpace(b[0])) && a != "" && !IsSpace(a[0])
    ensures WordEnd(a) > 0 && Split(a + b) == [a[..WordEnd(a)]] + Split(a[WordEnd(a)..] + b)
  {
    WordEndConcat(a, b);
    TakeDrop(a, b, WordEnd(a));
    SplitUnfold(a);
    SplitUnfold(a + b);
  }

  lemma {:induction false} SplitBlank(s: string)
    requires forall i :: 0 <= i < |s| ==> IsSpace(s[i])
    ensures Split(s) == []
  {
    if s != "" {
      SplitBlank(s[1..]);
    }
  }

  lemma SplitWord(w: string)
    requires IsWord(w)
    ensures Split(w) == [w]
  {
    assert WordEnd(w) == |w| && w[..|w|] == w && w[|w|..] == "";
  }

  /** Leading white space has no words. */
  lemma {:induction false} SplitSkips(s: string, n: nat)
    requires n <= |s| && forall i :: 0 <= i < n ==> IsSpace(s[i])
    ensures Split(s[n..]) == Split(s)
    decreases n
  {
    if n > 0 {
      SplitSkips(s[1..], n - 1);
      assert s[1..][n - 1..] == s[n..];
    }
  }

  lemma SplitTrimmed(s: string)
    ensures Split(s[..TrimmedLength(s)]) == Split(s)
  {
    var n := TrimmedLength(s);
    TrimmedLengthFacts(s);
    SplitAtSpace(s[..n], s[n..]);
    SplitBlank(s[n..]);
    assert s[..n] + s[n..] == s;
  }

  lemma SplitStrip(s: string)
    ensures Split(Strip(s)) == Split(s)
  {
    var kept := s[..TrimmedLength(s)];
    SplitTrimmed(s);
    SkipSpaceFacts(kept);
    SplitSkips(kept, SkipSpace(kept));
  }

  /** Splitting undoes joining. */
  lemma {:induction false} SplitJoin(ws: seq<string>)
    requires forall k :: 0 <= k < |ws| ==> IsWord(ws[k])
    ensures Split(Join(ws)) == ws
  {
    if ws != [] {
      SplitWord(ws[0]);
      if |ws| > 1 {
        SplitJoin(ws[1..]);
        var rest := " " + Join(ws[1..]);
        assert rest[1..] == Join(ws[1..]) && Join(ws) == ws[0] + rest;
        SplitAtSpace(ws[0], rest);
      }
    }
  }

  /** No text holding given words is shorter than their join. */
  lemma {:induction false} JoinIsShortest(s: string)
    ensures |Join(Split(s))| <= |s|
    ensures Split(s) != [] && IsSpace(s[0]) ==> |Join(Split(s))| < |s|
    decreases |s|
  {
    if s != "" {
      if IsSpace(s[0]) {
        JoinIsShortest(s[1..]);
      } else {
        JoinIsShortest(s[WordEnd(s)..]);
        assert Split(s)[1..] == Split(s[WordEnd(s)..]);
      }
    }
  }

  /** One line break: it ends the words of the line before it. */
  lemma SplitAtBreak(s: string, n: nat, m: nat)
    requires n + m <= |s| && m > 0 && forall i :: n <= i < n + m ==> IsBreak(s[i])
    ensures Split(s) == Split(s[..n]) + Split(s[n + m..])
  {
    var tail := s[n..];
    assert s[..n] + tail == s && tail[m..] == s[n + m..];
    assert forall i :: 0 <= i < m ==> tail[i] == s[n + i];
    SplitAtSpace(s[..n], tail);
    SplitSkips(tail, m);
  }

  lemma BreaksFrom(s: string, n: nat)
    requires n < |s| && IsBreak(s[n])
    ensures var m := BreakLength(s[n..]); n + m <= |s| && forall i :: n <= i < n + m ==> IsBreak(s[i])
  {
    var tail := s[n..];
    assert tail[0] == s[n] && (|tail| > 1 ==> tail[1] == s[n + 1]);
  }

  lemma WordsOfCons(text: string, texts: seq<string>)
    ensures WordsOf([text] + texts) == Split(text) + WordsOf(texts)
  {
    assert ([text] + texts)[1..] == texts;
  }

  lemma {:induction false} SplitOfLines(s: string)
    ensures WordsOf(SplitLines(s)) == Split(s)
    decreases |s|
  {
    if s != "" {
      var n := LineEnd(s);
      if n == |s| {
        WordsOfCons(s, []);
        assert [s] + [] == [s] && Split(s) + [] == Split(s);
      } else {
        var m := BreakLength(s[n..]);
        BreaksFrom(s, n);
        SplitOfLines(s[n + m..]);
        SplitAtBreak(s, n, m);
        WordsOfCons(s[..n], SplitLines(s[n + m..]));
      }
    }
  }
}
