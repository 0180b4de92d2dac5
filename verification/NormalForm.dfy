/** What normalization makes of a document's text: it only shortens runs, and its results are in normal form. */
module NormalForm {
  import opened Words
  import opened DocumentText

  // ----- where the substitutions act

  /** Line breaks are replaced one by one; only a line feed behind a carriage return goes with it. */
  lemma {:induction false} FixBreaksAt(a: string, b: string)
    requires a != "" && b != "" && a[|a| - 1] == '\r' ==> b[0] != '\n'
    ensures FixBreaks(a + b) == FixBreaks(a) + FixBreaks(b)
    decreases |a|
  {
    if a == "" {
      assert a + b == b;
    } else {
      var n := if a[0] == '\r' && |a| > 1 && a[1] == '\n' then 2 else 1;
      var head := if a[0] == '\r' then "\n" else [a[0]];
      TakeDrop(a, b, n);
      FixBreaksAt(a[n..], b);
      assert FixBreaks(a + b) == head + FixBreaks(a[n..] + b);
      SameHead(head, FixBreaks(a[n..]), FixBreaks(b));
    }
  }

  /** Every line break becomes a line feed. */
  lemma FixBreaksOfOne(c: char)
    ensures FixBreaks([c]) == if c == '\r' then "\n" else [c]
    ensures FixBreaks("\r\n") == "\n"
  {
    assert [c][1..] == "" && "\r\n"[2..] == "";
  }

  ghost predicate Apart(a: string, b: string, c: char, d: char) {
    a != "" && b != "" && (a[|a| - 1] == c || a[|a| - 1] == d) ==> b[0] != c && b[0] != d
  }

  lemma SameHead(head: string, a: string, b: string)
    ensures head + (a + b) == (head + a) + b
  {
  }

  lemma {:induction false} RunsConcat(a: string, b: string)
    ensures BlankRun(a + b) == if BlankRun(a) < |a| then BlankRun(a) else |a| + BlankRun(b)
    ensures FeedRun(a + b) == if FeedRun(a) < |a| then FeedRun(a) else |a| + FeedRun(b)
  {
    if a == "" {
      assert a + b == b;
    } else {
      assert (a + b)[1..] == a[1..] + b;
      RunsConcat(a[1..], b);
    }
  }

  lemma BlankRunOfBoth(a: string, b: string)
    requires a != "" && Apart(a, b, ' ', '\t')
    ensures BlankRun(a + b) == BlankRun(a)
  {
    RunsConcat(a, b);
    BlankRunIsBlank(a);
  }

  lemma FeedRunOfBoth(a: string, b: string)
    requires a != "" && Apart(a, b, '\n', '\n')
    ensures FeedRun(a + b) == FeedRun(a)
  {
    RunsConcat(a, b);
    FeedRunIsFeeds(a);
  }

  /** Blanks are squashed run by run. */
  lemma {:induction false} SquashBlanksAt(a: string, b: string)
    requires Apart(a, b, ' ', '\t')
    ensures SquashBlanks(a + b) == SquashBlanks(a) + SquashBlanks(b)
    decreases |a|
  {
    if a == "" {
      assert a + b == b;
    } else {
      var n := if BlankRun(a) == 0 then 1 else BlankRun(a);
      BlankRunOfBoth(a, b);
      TakeDrop(a, b, n);
      SquashBlanksAt(a[n..], b);
      var head := if BlankRun(a) == 0 then [a[0]] else " ";
      assert SquashBlanks(a + b) == head + SquashBlanks(a[n..] + b);
      SameHead(head, SquashBlanks(a[n..]), SquashBlanks(b));
    }
  }

  lemma {:induction false} BlankRunIsBlank(s: string)
    ensures forall i :: 0 <= i < BlankRun(s) ==> IsBlank(s[i])
    ensures BlankRun(s) < |s| ==> !IsBlank(s[BlankRun(s)])
  {
    if s != "" && IsBlank(s[0]) {
      BlankRunIsBlank(s[1..]);
    }
  }

  lemma {:induction false} FeedRunIsFeeds(s: string)
    ensures forall i :: 0 <= i < FeedRun(s) ==> s[i] == '\n'
    ensures FeedRun(s) < |s| ==> s[FeedRun(s)] != '\n'
  {
    if s != "" && s[0] == '\n' {
      FeedRunIsFeeds(s[1..]);
    }
  }

  /** A run of blanks becomes one space, and anything else stays. */
  lemma {:induction false} SquashBlanksOfRun(run: string)
    ensures run != "" && (forall i :: 0 <= i < |run| ==> IsBlank(run[i])) ==> SquashBlanks(run) == " "
    ensures (forall i :: 0 <= i < |run| ==> !IsBlank(run[i])) ==> SquashBlanks(run) == run
  {
    BlankRunIsBlank(run);
    if run != "" && BlankRun(run) == 0 {
      SquashBlanksOfRun(run[1..]);
    }
  }

  /** Line feeds are squashed run by run. */
  lemma {:induction false} SquashFeedsAt(a: string, b: string)
    requires Apart(a, b, '\n', '\n')
    ensures SquashFeeds(a + b) == SquashFeeds(a) + SquashFeeds(b)
    decreases |a|
  {
    if a == "" {
      assert a + b == b;
    } else {
      var n := if FeedRun(a) == 0 then 1 else FeedRun(a);
      FeedRunOfBoth(a, b);
      TakeDrop(a, b, n);
      SquashFeedsAt(a[n..], b);
      var head := if FeedRun(a) == 0 then [a[0]] else if FeedRun(a) >= 3 then "\n\n" else a[..n];
      assert SquashFeeds(a + b) == head + SquashFeeds(a[n..] + b);
      SameHead(head, SquashFeeds(a[n..]), SquashFeeds(b));
    }
  }

  /** Of three or more line feeds in a row two are left, and anything else stays. */
  lemma {:induction false} SquashFeedsOfRun(run: string)
    ensures (forall i :: 0 <= i < |run| ==> run[i] == '\n') ==> SquashFeeds(run) == if |run| > 2 then "\n\n" else run
    ensures (forall i :: 0 <= i < |run| ==> run[i] != '\n') ==> SquashFeeds(run) == run
  {
    FeedRunIsFeeds(run);
    if run != "" && FeedRun(run) == 0 {
      SquashFeedsOfRun(run[1..]);
    } else if FeedRun(run) == |run| {
      assert run[..|run|] == run && SquashFeeds("") == "";
    }
  }

  // ----- the normal form

  ghost predicate SingleBlanks(s: string) {
    && '\t' !in s
    && forall i, j :: 0 <= i < j < |s| && j == i + 1 ==> !(s[i] == ' ' && s[j] == ' ')
  }

  ghost predicate FewFeeds(s: string) {
    forall i :: 0 <= i < |s| ==> FeedRun(s[i..]) <= 2
  }

  /** No carriage returns, tabs, double spaces or three line feeds in a row, and no white space at the ends. */
  ghost predicate Normal(s: string) {
    && '\r' !in s && SingleBlanks(s) && FewFeeds(s)
    && (s != "" ==> !IsSpace(s[0]) && !IsSpace(s[|s| - 1]))
  }

  lemma {:induction false} FixedHasNoReturns(s: string)
    ensures '\r' !in FixBreaks(s)
    ensures '\r' !in s ==> FixBreaks(s) == s
    decreases |s|
  {
    if s != "" {
      var n := if s[0] == '\r' && |s| > 1 && s[1] == '\n' then 2 else 1;
      FixedHasNoReturns(s[n..]);
      assert s == [s[0]] + s[1..];
    }
  }

  lemma SingleConcat(a: string, b: string)
    requires SingleBlanks(a) && SingleBlanks(b)
    requires a != "" && b != "" && a[|a| - 1] == ' ' ==> b[0] != ' '
    ensures SingleBlanks(a + b)
  {
  }

  lemma SingleSlice(s: string, a: nat, b: nat)
    requires a <= b <= |s| && SingleBlanks(s)
    ensures SingleBlanks(s[a..b])
  {
    assert forall i :: 0 <= i < b - a ==> s[a..b][i] == s[a + i] && s[a + i] in s;
  }

  lemma {:induction false} SquashedBlanksAreSingle(s: string)
    ensures SingleBlanks(SquashBlanks(s)) && ('\r' !in s ==> '\r' !in SquashBlanks(s))
    ensures s != "" ==> SquashBlanks(s) != "" && (IsBlank(SquashBlanks(s)[0]) <==> IsBlank(s[0]))
    decreases |s|
  {
    if s != "" {
      var n := if BlankRun(s) == 0 then 1 else BlankRun(s);
      BlankRunIsBlank(s);
      SquashedBlanksAreSingle(s[n..]);
      assert s[n..] != "" ==> s[n..][0] == s[n];
      SingleConcat(if BlankRun(s) == 0 then [s[0]] else " ", SquashBlanks(s[n..]));
    }
  }

  lemma {:induction false} SingleBlanksStay(s: string)
    requires SingleBlanks(s)
    ensures SquashBlanks(s) == s
  {
    if s != "" {
      BlankRunIsBlank(s);
      assert forall i :: 0 <= i < |s| ==> s[i] in s;
      assert BlankRun(s) <= 1;
      SingleSlice(s, 1, |s|);
      SingleBlanksStay(s[1..]);
      assert s == [s[0]] + s[1..] && s[0] in s;
    }
  }

  lemma {:induction false} SquashedFeedsAreSingle(s: string)
    requires SingleBlanks(s) && '\r' !in s
    ensures SingleBlanks(SquashFeeds(s)) && '\r' !in SquashFeeds(s)
    ensures s != "" ==> SquashFeeds(s) != "" && SquashFeeds(s)[0] == s[0]
    decreases |s|
  {
    if s != "" {
      var n := if FeedRun(s) == 0 then 1 else FeedRun(s);
      FeedRunIsFeeds(s);
      SingleSlice(s, n, |s|);
      SquashedFeedsAreSingle(s[n..]);
      assert s[..n] != "" && s[..n][0] == s[0];
      SingleSlice(s, 0, n);
      var head := if FeedRun(s) == 0 then [s[0]] else if FeedRun(s) >= 3 then "\n\n" else s[..n];
      assert SquashFeeds(s) == head + SquashFeeds(s[n..]);
      SingleConcat(head, SquashFeeds(s[n..]));
    }
  }

  lemma FewConcat(v: string, r: string)
    requires |v| <= 2 && FewFeeds(r) && (FeedRun(r) == 0 || (|v| == 1 && v[0] != '\n'))
    ensures FewFeeds(v + r)
  {
    forall i | 0 <= i < |v + r|
      ensures FeedRun((v + r)[i..]) <= 2
    {
      if i < |v| {
        TakeDrop(v, r, i);
        FewFront(v[i..], r);
      } else {
        assert (v + r)[i..] == r[i - |v|..];
      }
    }
  }

  lemma FewFront(v: string, r: string)
    requires |v| <= 2 && v != "" && (FeedRun(r) == 0 || (|v| == 1 && v[0] != '\n'))
    ensures FeedRun(v + r) <= 2
  {
    RunsConcat(v, r);
  }

  lemma FewSlice(s: string, a: nat, b: nat)
    requires a <= b <= |s| && FewFeeds(s)
    ensures FewFeeds(s[a..b])
  {
    forall i | 0 <= i < b - a
      ensures FeedRun(s[a..b][i..]) <= 2
    {
      assert s[a..b][i..] + s[b..] == s[a + i..];
      RunsConcat(s[a..b][i..], s[b..]);
    }
  }

  lemma {:induction false} SquashedFeedsAreFew(s: string)
    ensures FewFeeds(SquashFeeds(s)) && (FeedRun(s) == 0 ==> FeedRun(SquashFeeds(s)) == 0)
    decreases |s|
  {
    if s != "" {
      var n := if FeedRun(s) == 0 then 1 else FeedRun(s);
      FeedRunIsFeeds(s);
      SquashedFeedsAreFew(s[n..]);
      var head := if FeedRun(s) == 0 then [s[0]] else if FeedRun(s) >= 3 then "\n\n" else s[..n];
      assert SquashFeeds(s) == head + SquashFeeds(s[n..]);
      assert FeedRun(s) > 0 ==> FeedRun(s[n..]) == 0;
      FewConcat(head, SquashFeeds(s[n..]));
    }
  }

  lemma {:induction false} FewFeedsStay(s: string)
    requires FewFeeds(s)
    ensures SquashFeeds(s) == s
    decreases |s|
  {
    if s != "" {
      var n := FeedRun(s);
      FewFirst(s);
      if n == 0 {
        FewTail(s, 1);
        FewFeedsStay(s[1..]);
        HeadAndTail(s);
      } else {
        FewTail(s, n);
        FewFeedsStay(s[n..]);
        assert SquashFeeds(s) == s[..n] + s[n..];
      }
    }
  }

  lemma FewTail(s: string, n: nat)
    requires n <= |s| && FewFeeds(s)
    ensures FewFeeds(s[n..])
  {
    forall i | 0 <= i < |s[n..]|
      ensures FeedRun(s[n..][i..]) <= 2
    {
      assert s[n..][i..] == s[n + i..];
    }
  }

  lemma FewFirst(s: string)
    requires s != "" && FewFeeds(s)
    ensures FeedRun(s) <= 2
  {
    assert FeedRun(s[0..]) <= 2;
    assert s[0..] == s;
  }

  /** Normalized text is in normal form. */
  lemma NormalizedIsNormal(text: string)
    ensures Normal(Normalize(text))
  {
    var fixed := FixBreaks(text);
    var squashed := SquashBlanks(fixed);
    var shortened := SquashFeeds(squashed);
    FixedHasNoReturns(text);
    SquashedBlanksAreSingle(fixed);
    SquashedFeedsAreSingle(squashed);
    SquashedFeedsAreFew(squashed);
    StrippedIsNormal(shortened);
  }

  lemma StrippedIsNormal(s: string)
    requires '\r' !in s && SingleBlanks(s) && FewFeeds(s)
    ensures Normal(Strip(s))
  {
    var a := StripFacts(s);
    var b := a + |Strip(s)|;
    SingleSlice(s, a, b);
    FewSlice(s, a, b);
    assert forall c :: c in s[a..b] ==> c in s;
  }

  /** Text in normal form is left as it is, so normalizing twice changes nothing. */
  lemma NormalStays(text: string)
    requires Normal(text)
    ensures Normalize(text) == text
  {
    FixedHasNoReturns(text);
    SingleBlanksStay(text);
    FewFeedsStay(text);
    if text != "" {
      StripOfTrimmed(text);
    }
  }
}
