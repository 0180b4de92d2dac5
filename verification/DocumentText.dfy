/** A document's text before it is cut into windows: normalization, and the sections of a Markdown document. */
module DocumentText {
  import opened Words

  // ----- normalization

  /** `re.sub(r"\r\n?", "\n", …)` */
  function FixBreaks(s: string): string
    decreases |s|
  {
    if s == "" then ""
    else if s[0] != '\r' then [s[0]] + FixBreaks(s[1..])
    else if |s| > 1 && s[1] == '\n' then "\n" + FixBreaks(s[2..])
    else "\n" + FixBreaks(s[1..])
  }

  predicate IsBlank(c: char) {
    c == ' ' || c == '\t'
  }

  /** The length of the run of blanks, or of line feeds, at the start of a text. */
  function BlankRun(s: string): (n: nat)
    ensures n <= |s|
  {
    if s == "" || !IsBlank(s[0]) then 0 else 1 + BlankRun(s[1..])
  }

  function FeedRun(s: string): (n: nat)
    ensures n <= |s|
  {
    if s == "" || s[0] != '\n' then 0 else 1 + FeedRun(s[1..])
  }

  /** `re.sub(r"[ \t]+", " ", …)` */
  function SquashBlanks(s: string): string
    decreases |s|
  {
    if s == "" then ""
    else if BlankRun(s) == 0 then [s[0]] + SquashBlanks(s[1..])
    else " " + SquashBlanks(s[BlankRun(s)..])
  }

  /** `re.sub(r"\n{3,}", "\n\n", …)` */
  function SquashFeeds(s: string): string
    decreases |s|
  {
    if s == "" then ""
    else if FeedRun(s) == 0 then [s[0]] + SquashFeeds(s[1..])
    else (if FeedRun(s) >= 3 then "\n\n" else s[..FeedRun(s)]) + SquashFeeds(s[FeedRun(s)..])
  }

  /** `_normalize_text`. */
  function Normalize(text: string): string {
    Strip(SquashFeeds(SquashBlanks(FixBreaks(text))))
  }

  ghost predicate AllSpace(s: string) {
    forall i :: 0 <= i < |s| ==> IsSpace(s[i])
  }

  /** White space for white space: the words around it stay. */
  lemma SpaceForSpace(x: string, u: string, a: string, v: string, b: string)
    requires u != "" && v != "" && AllSpace(u) && AllSpace(v) && Split(a) == Split(b)
    ensures Split(x + (u + a)) == Split(x + (v + b))
  {
    SpaceBetween(x, u, a);
    SpaceBetween(x, v, b);
  }

  lemma SpaceBetween(x: string, u: string, a: string)
    requires u != "" && AllSpace(u)
    ensures Split(x + (u + a)) == Split(x) + Split(a)
  {
    assert (u + a)[..|u|] == u && (u + a)[|u|..] == a;
    SplitSkips(u + a, |u|);
    SplitAtSpace(x, u + a);
  }

  /** A text behind a prefix keeps its words when the part after a copied character does. */
  lemma CopyOne(x: string, c: char, a: string, b: string)
    requires Split(x + [c] + a) == Split(x + [c] + b)
    ensures Split(x + ([c] + a)) == Split(x + ([c] + b))
  {
    assert x + [c] + a == x + ([c] + a) && x + [c] + b == x + ([c] + b);
  }

  /** A run of white space at the start of `s` becomes `v`, and what follows keeps its words. */
  lemma ReplaceRun(x: string, s: string, n: nat, v: string, a: string)
    requires 0 < n <= |s| && AllSpace(s[..n]) && v != "" && AllSpace(v)
    requires Split("" + a) == Split("" + s[n..])
    ensures Split(x + (v + a)) == Split(x + s)
  {
    assert "" + a == a && "" + s[n..] == s[n..] && s[..n] + s[n..] == s;
    SpaceForSpace(x, v, a, s[..n], s[n..]);
  }

  lemma HeadAndTail(s: string)
    requires s != ""
    ensures [s[0]] + s[1..] == s
  {
  }

  lemma {:induction false} FixBreaksKeepsWords(x: string, s: string)
    ensures Split(x + FixBreaks(s)) == Split(x + s)
    decreases |s|
  {
    if s != "" {
      if s[0] != '\r' {
        FixBreaksKeepsWords(x + [s[0]], s[1..]);
        CopyOne(x, s[0], FixBreaks(s[1..]), s[1..]);
        HeadAndTail(s);
      } else {
        var n := if |s| > 1 && s[1] == '\n' then 2 else 1;
        FixBreaksKeepsWords("", s[n..]);
        ReplaceRun(x, s, n, "\n", FixBreaks(s[n..]));
      }
    }
  }

  lemma {:induction false} BlankRunIsSpace(s: string)
    ensures AllSpace(s[..BlankRun(s)])
  {
    if s != "" && IsBlank(s[0]) {
      BlankRunIsSpace(s[1..]);
      assert s[..BlankRun(s)] == [s[0]] + s[1..][..BlankRun(s[1..])];
    }
  }

  lemma {:induction false} FeedRunIsSpace(s: string)
    ensures AllSpace(s[..FeedRun(s)])
  {
    if s != "" && s[0] == '\n' {
      FeedRunIsSpace(s[1..]);
      assert s[..FeedRun(s)] == [s[0]] + s[1..][..FeedRun(s[1..])];
    }
  }

  lemma {:induction false} SquashBlanksKeepsWords(x: string, s: string)
    ensures Split(x + SquashBlanks(s)) == Split(x + s)
    decreases |s|
  {
    var n := BlankRun(s);
    if s != "" && n == 0 {
      SquashBlanksKeepsWords(x + [s[0]], s[1..]);
      CopyOne(x, s[0], SquashBlanks(s[1..]), s[1..]);
      HeadAndTail(s);
    } else if s != "" {
      SquashBlanksKeepsWords("", s[n..]);
      BlankRunIsSpace(s);
      ReplaceRun(x, s, n, " ", SquashBlanks(s[n..]));
    }
  }

  lemma {:induction false} SquashFeedsKeepsWords(x: string, s: string)
    ensures Split(x + SquashFeeds(s)) == Split(x + s)
    decreases |s|
  {
    var n := FeedRun(s);
    if s != "" && n == 0 {
      SquashFeedsKeepsWords(x + [s[0]], s[1..]);
      CopyOne(x, s[0], SquashFeeds(s[1..]), s[1..]);
      HeadAndTail(s);
    } else if s != "" {
      SquashFeedsKeepsWords("", s[n..]);
      FeedRunIsSpace(s);
      ReplaceRun(x, s, n, if n >= 3 then "\n\n" else s[..n], SquashFeeds(s[n..]));
    }
  }

  /** Normalization keeps the words of a text, in order. */
  lemma NormalizeKeepsWords(text: string)
    ensures Split(Normalize(text)) == Split(text)
  {
    var fixed := FixBreaks(text);
    var squashed := SquashBlanks(fixed);
    FixBreaksKeepsWords("", text);
    SquashBlanksKeepsWords("", fixed);
    SquashFeedsKeepsWords("", squashed);
    SplitStrip(SquashFeeds(squashed));
    assert forall s: string :: "" + s == s;
  }

  // ----- sections

  /** One to six hashes and a white space start at `i`. */
  predicate HeadingAt(s: string, i: nat) {
    exists h :: 1 <= h <= 6 && HashesAt(s, i, h)
  }

  predicate HashesAt(s: string, i: nat, h: nat) {
    i + h < |s| && (forall j :: i <= j < i + h ==> s[j] == '#') && IsSpace(s[i + h])
  }

  predicate CutAt(s: string, i: nat) {
    i < |s| && s[i] == '\n' && HeadingAt(s, i + 1)
  }

  function NextCut(s: string, from: nat): (n: nat)
    requires from <= |s|
    ensures from <= n <= |s| && (n < |s| ==> CutAt(s, n)) && forall i :: from <= i < n ==> !CutAt(s, i)
    decreases |s| - from
  {
    if from == |s| || CutAt(s, from) then from else NextCut(s, from + 1)
  }

  /** `re.split(r"\n(?=#{1,6}\s)", …)`: cuts at every line feed before a heading. */
  function Sections(s: string): (sections: seq<string>)
    ensures sections != []
    decreases |s|
  {
    var n := NextCut(s, 0);
    if n == |s| then [s] else [s[..n]] + Sections(s[n + 1..])
  }

  ghost function Rejoin(sections: seq<string>): string
    requires sections != []
  {
    if |sections| == 1 then sections[0] else sections[0] + "\n" + Rejoin(sections[1..])
  }

  ghost predicate Uncut(s: string) {
    forall i :: 0 <= i < |s| ==> !CutAt(s, i)
  }

  lemma CutInPrefix(s: string, n: nat, i: nat)
    requires n <= |s| && CutAt(s[..n], i)
    ensures CutAt(s, i)
  {
    var h :| 1 <= h <= 6 && HashesAt(s[..n], i + 1, h);
    assert forall j :: i + 1 <= j <= i + 1 + h ==> s[j] == s[..n][j];
    assert HashesAt(s, i + 1, h);
  }

  lemma PrefixIsUncut(s: string, n: nat)
    requires n <= |s| && forall i :: 0 <= i < n ==> !CutAt(s, i)
    ensures Uncut(s[..n])
  {
    forall i | 0 <= i < n && CutAt(s[..n], i)
      ensures CutAt(s, i)
    {
      CutInPrefix(s, n, i);
    }
  }

  /** One to six hashes start the section, with white space or nothing after them. */
  ghost predicate StartsWithHeading(section: string) {
    exists h :: 1 <= h <= 6 && HashesEnd(section, h)
  }

  ghost predicate HashesEnd(section: string, h: nat) {
    h <= |section| && (forall j :: 0 <= j < h ==> section[j] == '#') && (h < |section| ==> IsSpace(section[h]))
  }

  lemma HeadingInSuffix(s: string, i: nat)
    requires i <= |s| && HeadingAt(s, i)
    ensures HeadingAt(s[i..], 0)
  {
    var h :| 1 <= h <= 6 && HashesAt(s, i, h);
    var t := s[i..];
    assert forall j :: 0 <= j <= h ==> t[j] == s[i + j];
    assert HashesAt(t, 0, h);
  }

  lemma HeadingStays(s: string, n: nat)
    requires HeadingAt(s, 0) && n <= |s| && (n < |s| ==> s[n] == '\n')
    ensures StartsWithHeading(s[..n])
  {
    var h :| 1 <= h <= 6 && HashesAt(s, 0, h);
    assert n < |s| ==> h <= n;
    assert HashesEnd(s[..n], h);
  }

  /** Every section starts with a heading when the text does; the later ones always do. */
  lemma {:induction false} SectionsStartWithHeadings(s: string)
    ensures forall k :: 1 <= k < |Sections(s)| ==> StartsWithHeading(Sections(s)[k])
    ensures HeadingAt(s, 0) ==> StartsWithHeading(Sections(s)[0])
    decreases |s|
  {
    var n := NextCut(s, 0);
    assert s[..|s|] == s;
    if HeadingAt(s, 0) {
      HeadingStays(s, n);
    }
    if n < |s| {
      HeadingInSuffix(s, n + 1);
      SectionsStartWithHeadings(s[n + 1..]);
    }
  }

  /** The sections with line feeds between them are the document. */
  lemma {:induction false} SectionsRejoin(s: string)
    ensures Rejoin(Sections(s)) == s
    decreases |s|
  {
    var n := NextCut(s, 0);
    if n < |s| {
      SectionsRejoin(s[n + 1..]);
      assert Sections(s)[1..] == Sections(s[n + 1..]);
      assert s == s[..n] + "\n" + s[n + 1..];
    }
  }

  /** No section has a line feed before a heading. */
  lemma {:induction false} SectionsAreUncut(s: string)
    ensures forall k :: 0 <= k < |Sections(s)| ==> Uncut(Sections(s)[k])
    decreases |s|
  {
    var n := NextCut(s, 0);
    assert s[..|s|] == s;
    PrefixIsUncut(s, n);
    if n < |s| {
      SectionsAreUncut(s[n + 1..]);
      UncutCons(s[..n], Sections(s[n + 1..]));
    }
  }

  lemma UncutCons(first: string, rest: seq<string>)
    requires Uncut(first) && forall k :: 0 <= k < |rest| ==> Uncut(rest[k])
    ensures forall k :: 0 <= k < |[first] + rest| ==> Uncut(([first] + rest)[k])
  {
  }

  /** The cut of a Markdown document: nothing but line feeds before headings is removed, every later section
      starts with a heading, and no section has a heading on a later line. */
  lemma SectionsStartAtHeadings(s: string)
    ensures Rejoin(Sections(s)) == s
    ensures forall k :: 1 <= k < |Sections(s)| ==> StartsWithHeading(Sections(s)[k])
    ensures forall k :: 0 <= k < |Sections(s)| ==> Uncut(Sections(s)[k])
  {
    SectionsRejoin(s);
    SectionsStartWithHeadings(s);
    SectionsAreUncut(s);
  }
}
