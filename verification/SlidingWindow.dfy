/** Sliding windows over a document's text, with overlap. */
module SlidingWindow {
  import opened Common
  import opened Words
  import opened DocumentText

  datatype Window = Window(start: nat, end: nat)

  datatype Chunk = Chunk(text: string, source: string, chunkIndex: nat, totalChunks: nat)

  function WindowEnd(n: nat, size: nat, start: nat): nat {
    if start + size <= n then start + size else n
  }

  /** The loop ends: the overlap is smaller than a window, or the rest of the text fits one. */
  predicate Ends(n: nat, size: nat, overlap: nat, start: nat) {
    overlap < size || n <= start + size
  }

  /** The windows the loop visits from `start` on, for a text of length `n`. */
  function Windows(n: nat, size: nat, overlap: nat, start: nat): (ws: seq<Window>)
    requires Ends(n, size, overlap, start) && start < n
    ensures ws != [] && ws[0].start == start
    decreases n - start
  {
    var end := WindowEnd(n, size, start);
    if n <= end then [Window(start, end)]
    else [Window(start, end)] + Windows(n, size, overlap, end - overlap)
  }

  /** The window's text from `from` to `to`: it starts and ends with a character that is not white space, and the
      rest of the window is white space. */
  ghost predicate TrimAt(text: string, w: Window, t: string, from: nat, to: nat) {
    && w.start <= from < to <= w.end <= |text| && t == text[from..to]
    && !IsSpace(text[from]) && !IsSpace(text[to - 1])
    && (forall i :: w.start <= i < from ==> IsSpace(text[i]))
    && (forall i :: to <= i < w.end ==> IsSpace(text[i]))
  }

  ghost predicate IsTrim(text: string, w: Window, t: string) {
    exists from: nat, to: nat :: TrimAt(text, w, t, from, to)
  }

  ghost predicate IsBlank(text: string, w: Window) {
    w.end <= |text| && forall i :: w.start <= i < w.end ==> IsSpace(text[i])
  }

  /** The texts are the trimmed windows at `places`, in order, and every other window is blank. */
  ghost predicate AreTrims(text: string, ws: seq<Window>, texts: seq<string>, places: seq<nat>) {
    && |places| == |texts|
    && (forall k :: 0 <= k < |texts| ==> places[k] < |ws| && IsTrim(text, ws[places[k]], texts[k]))
    && (forall i, j :: 0 <= i < j < |places| ==> places[i] < places[j])
    && (forall j :: 0 <= j < |ws| && j !in places ==> IsBlank(text, ws[j]))
  }

  /** `texts` are the windows of `text`, each without the white space at its ends, the blank ones left out. */
  ghost predicate AreWindowTexts(text: string, size: nat, overlap: nat, texts: seq<string>)
    requires Ends(|text|, size, overlap, 0)
  {
    if text == "" then texts == []
    else exists places :: AreTrims(text, Windows(|text|, size, overlap, 0), texts, places)
  }

  ghost function TextsOf(chunks: seq<Chunk>): seq<string> {
    seq(|chunks|, k requires 0 <= k < |chunks| => chunks[k].text)
  }

  /** These chunks are numbered from zero, each with their total and the source. */
  ghost predicate AreNumbered(chunks: seq<Chunk>, source: string) {
    forall k :: 0 <= k < |chunks| ==>
      chunks[k].source == source && chunks[k].chunkIndex == k && chunks[k].totalChunks == |chunks|
  }

  function Ceil(a: nat, b: nat): nat
    requires b > 0
  {
    (a + b - 1) / b
  }

  /** The shape of the windows: equal steps, full size except perhaps the last, up to the end of the text. */
  lemma {:induction false} WindowShape(n: nat, size: nat, overlap: nat, start: nat)
    requires Ends(n, size, overlap, start) && start < n
    ensures var ws := Windows(n, size, overlap, start);
            && (forall k :: 0 <= k < |ws| ==>
                  ws[k].start == start + k * (size - overlap) && ws[k].start < ws[k].end <= n)
            && (forall k :: 0 <= k < |ws| - 1 ==> ws[k].end == ws[k].start + size && ws[k].end < n)
            && ws[|ws| - 1].end == n && n <= ws[|ws| - 1].start + size
    decreases n - start
  {
    var ws := Windows(n, size, overlap, start);
    var end := WindowEnd(n, size, start);
    if end < n {
      var rest := Windows(n, size, overlap, end - overlap);
      WindowShape(n, size, overlap, end - overlap);
      assert forall k :: 1 <= k < |ws| ==> ws[k] == rest[k - 1];
      forall k | 0 <= k < |ws|
        ensures ws[k].start == start + k * (size - overlap)
      {
        if k > 0 {
          assert rest[k - 1].start == end - overlap + (k - 1) * (size - overlap);
          assert (k - 1) * (size - overlap) + (size - overlap) == k * (size - overlap);
        }
      }
    }
  }

  lemma MulAtLeast(d: nat, b: nat)
    requires d >= 1
    ensures d * b >= b
  {
  }

  lemma DivIs(x: nat, b: nat, k: nat, r: nat)
    requires b > 0 && x == k * b + r && r < b
    ensures x / b == k
  {
    var q, m := x / b, x % b;
    assert (q - k) * b == r - m && (k - q) * b == m - r;
    if q > k { MulAtLeast(q - k, b); }
    if q < k { MulAtLeast(k - q, b); }
  }

  lemma CeilIs(a: nat, b: nat, k: nat)
    requires b > 0 && k > 0 && (k - 1) * b < a <= k * b
    ensures Ceil(a, b) == k
  {
    assert k * b == (k - 1) * b + b;
    DivIs(a + b - 1, b, k, a + b - 1 - k * b);
  }

  /** One window for a short text; otherwise one more than the steps needed to reach the end. */
  lemma WindowCount(n: nat, size: nat, overlap: nat)
    requires Ends(n, size, overlap, 0) && 0 < n
    ensures |Windows(n, size, overlap, 0)| == if n <= size then 1 else 1 + Ceil(n - size, size - overlap)
  {
    WindowShape(n, size, overlap, 0);
    var ws := Windows(n, size, overlap, 0);
    if size < n {
      var k, step := |ws| - 1, size - overlap;
      assert ws[k].start == k * step && ws[k - 1].start == (k - 1) * step && ws[k - 1].end < n;
      CeilIs(n - size, step, k);
    }
  }

  /** Where the loop stands after `turns` turns, for any overlap; None once it has left. */
  ghost function PositionAfter(n: nat, size: nat, overlap: nat, turns: nat): Option<nat> {
    if turns == 0 then (if n > 0 then Some(0) else None)
    else
      match PositionAfter(n, size, overlap, turns - 1)
      case None => None
      case Some(start) =>
        var end := WindowEnd(n, size, start);
        if n <= end then None else Some(if end - overlap > 0 then end - overlap else 0)
  }

  lemma {:induction false} PositionsAdvance(n: nat, size: nat, overlap: nat, turns: nat)
    requires overlap < size
    ensures var p := PositionAfter(n, size, overlap, turns); p.Some? ==> turns <= p.value < n
  {
    if turns > 0 {
      PositionsAdvance(n, size, overlap, turns - 1);
    }
  }

  lemma {:induction false} PositionStuck(n: nat, size: nat, overlap: nat, turns: nat)
    requires size <= overlap && size < n
    ensures PositionAfter(n, size, overlap, turns) == Some(0)
  {
    if turns > 0 {
      PositionStuck(n, size, overlap, turns - 1);
    }
  }

  /** The loop ends exactly when the text fits one window or the overlap is smaller than the window. */
  lemma LoopEndsIff(n: nat, size: nat, overlap: nat)
    ensures (exists turns :: PositionAfter(n, size, overlap, turns).None?) <==> n <= size || overlap < size
  {
    if overlap < size {
      PositionsAdvance(n, size, overlap, n);
      assert PositionAfter(n, size, overlap, n).None?;
    } else if n <= size {
      assert PositionAfter(n, size, overlap, 0) in {None, Some(0)};
      assert PositionAfter(n, size, overlap, 1).None?;
    } else {
      forall turns: nat
        ensures PositionAfter(n, size, overlap, turns).Some?
      {
        PositionStuck(n, size, overlap, turns);
      }
    }
  }

  /** The first window, then each further window without its overlap. */
  ghost function Stitch(text: string, ws: seq<Window>, overlap: nat): string
    requires forall k :: 0 <= k < |ws| ==> ws[k].start <= ws[k].end <= |text|
    requires forall k :: 1 <= k < |ws| ==> ws[k].start + overlap <= ws[k].end
  {
    if ws == [] then ""
    else if |ws| == 1 then text[ws[0].start..ws[0].end]
    else Stitch(text, ws[..|ws| - 1], overlap) + text[ws[|ws| - 1].start + overlap..ws[|ws| - 1].end]
  }

  lemma {:induction false} StitchPrefix(text: string, ws: seq<Window>, overlap: nat)
    requires ws != [] && ws[0].start == 0
    requires forall k :: 0 <= k < |ws| ==> ws[k].start <= ws[k].end <= |text|
    requires forall k :: 1 <= k < |ws| ==> ws[k].start + overlap <= ws[k].end
    requires forall k :: 1 <= k < |ws| ==> ws[k].start + overlap == ws[k - 1].end
    ensures Stitch(text, ws, overlap) == text[..ws[|ws| - 1].end]
  {
    if |ws| > 1 {
      var init := ws[..|ws| - 1];
      StitchPrefix(text, init, overlap);
      var cut, end := init[|init| - 1].end, ws[|ws| - 1].end;
      assert text[..end] == text[..cut] + text[cut..end];
    }
  }

  /** Each window starts `overlap` before the end of the one before it. */
  lemma {:induction false} WindowsOverlap(n: nat, size: nat, overlap: nat, start: nat)
    requires Ends(n, size, overlap, start) && start < n
    ensures var ws := Windows(n, size, overlap, start);
            && (forall k :: 0 <= k < |ws| ==> ws[k].start <= ws[k].end <= n)
            && (forall k :: 1 <= k < |ws| ==> ws[k].start + overlap == ws[k - 1].end)
            && (forall k :: 1 <= k < |ws| ==> ws[k].start + overlap <= ws[k].end)
            && ws[|ws| - 1].end == n
    decreases n - start
  {
    var end := WindowEnd(n, size, start);
    if end < n {
      WindowsOverlap(n, size, overlap, end - overlap);
    }
  }

  /** The windows rebuild the text. */
  lemma WindowsRebuild(text: string, size: nat, overlap: nat)
    requires Ends(|text|, size, overlap, 0) && text != ""
    ensures var ws := Windows(|text|, size, overlap, 0);
            && (forall k :: 0 <= k < |ws| ==> ws[k].start <= ws[k].end <= |text|)
            && (forall k :: 1 <= k < |ws| ==> ws[k].start + overlap <= ws[k].end)
            && Stitch(text, ws, overlap) == text
  {
    WindowsOverlap(|text|, size, overlap, 0);
    StitchPrefix(text, Windows(|text|, size, overlap, 0), overlap);
    assert text[..|text|] == text;
  }

  lemma {:induction false} CoveringWindow(n: nat, size: nat, overlap: nat, start: nat, a: nat, b: nat) returns (k: nat)
    requires Ends(n, size, overlap, start) && start < n && start <= a <= b <= n && b - a <= overlap + 1
    ensures k < |Windows(n, size, overlap, start)|
    ensures Windows(n, size, overlap, start)[k].start <= a && b <= Windows(n, size, overlap, start)[k].end
    decreases n - start
  {
    var end := WindowEnd(n, size, start);
    if b <= end {
      k := 0;
    } else {
      var j := CoveringWindow(n, size, overlap, end - overlap, a, b);
      k := j + 1;
    }
  }

  /** Every substring of up to one more than the overlap lies inside one window. */
  lemma OverlapKeepsPhrasesWhole(n: nat, size: nat, overlap: nat, a: nat, b: nat)
    requires Ends(n, size, overlap, 0) && 0 < n && a <= b <= n && b - a <= overlap + 1
    ensures exists k :: 0 <= k < |Windows(n, size, overlap, 0)|
                        && Windows(n, size, overlap, 0)[k].start <= a && b <= Windows(n, size, overlap, 0)[k].end
  {
    var k := CoveringWindow(n, size, overlap, 0, a, b);
  }

  /** That bound is sharp on every text with more than one window: some substring one longer is cut. */
  lemma LongerPhraseIsCut(n: nat, size: nat, overlap: nat)
    requires overlap < size < n
    ensures var a, b := size - overlap - 1, size + 1;
            && b - a == overlap + 2 && b <= n
            && forall k :: 0 <= k < |Windows(n, size, overlap, 0)| ==>
                 !(Windows(n, size, overlap, 0)[k].start <= a && b <= Windows(n, size, overlap, 0)[k].end)
  {
    var ws, later := Windows(n, size, overlap, 0), Windows(n, size, overlap, size - overlap);
    assert ws == [Window(0, size)] + later;
    StartsGrow(n, size, overlap, size - overlap);
    assert forall k :: 1 <= k < |ws| ==> ws[k] == later[k - 1];
  }

  lemma {:induction false} StartsGrow(n: nat, size: nat, overlap: nat, start: nat)
    requires Ends(n, size, overlap, start) && start < n
    ensures forall k :: 0 <= k < |Windows(n, size, overlap, start)| ==>
              Windows(n, size, overlap, start)[k].start >= start
    decreases n - start
  {
    var end := WindowEnd(n, size, start);
    if end < n {
      StartsGrow(n, size, overlap, end - overlap);
      var ws, later := Windows(n, size, overlap, start), Windows(n, size, overlap, end - overlap);
      assert forall k :: 1 <= k < |ws| ==> ws[k] == later[k - 1];
    }
  }

  /** A stripped slice lies where the slice lies. */
  lemma TrimWindow(text: string, w: Window)
    requires w.start <= w.end <= |text|
    ensures var t := Strip(text[w.start..w.end]); if t == "" then IsBlank(text, w) else IsTrim(text, w, t)
  {
    var s := text[w.start..w.end];
    var t := Strip(s);
    var a := StripFacts(s);
    assert forall i :: w.start <= i < w.end ==> text[i] == s[i - w.start];
    if t != "" {
      SliceOfSlice(text, w.start, w.end, a, a + |t|);
      assert TrimAt(text, w, t, w.start + a, w.start + a + |t|);
    }
  }

  lemma SliceOfSlice(text: string, start: nat, end: nat, a: nat, b: nat)
    requires start <= end <= |text| && a <= b <= end - start
    ensures text[start..end][a..b] == text[start + a..start + b]
  {
    var outer := text[start..end];
    assert forall i :: a <= i < b ==> outer[i] == text[start + i];
    assert forall i :: 0 <= i < b - a ==> outer[a..b][i] == outer[a + i];
  }

  lemma OneMoreTrim(text: string, ws: seq<Window>, w: Window, texts: seq<string>, t: string, places: seq<nat>)
    requires AreTrims(text, ws, texts, places) && IsTrim(text, w, t)
    ensures AreTrims(text, ws + [w], texts + [t], places + [|ws|])
  {
    var more := places + [|ws|];
    assert forall j :: j in places ==> j in more;
    assert more[|places|] in more;
  }

  lemma OneMoreBlank(text: string, ws: seq<Window>, w: Window, texts: seq<string>, places: seq<nat>)
    requires AreTrims(text, ws, texts, places) && IsBlank(text, w)
    ensures AreTrims(text, ws + [w], texts, places)
  {
  }

  lemma TrimFacts(text: string, w: Window, t: string)
    requires IsTrim(text, w, t)
    ensures t != "" && |t| <= w.end - w.start && t == Strip(t)
  {
    var from: nat, to: nat :| TrimAt(text, w, t, from, to);
    assert t[0] == text[from] && t[to - from - 1] == text[to - 1];
    StripOfTrimmed(t);
  }

  lemma WindowIsNoLonger(n: nat, size: nat, overlap: nat, k: nat)
    requires Ends(n, size, overlap, 0) && 0 < n && k < |Windows(n, size, overlap, 0)|
    ensures Windows(n, size, overlap, 0)[k].end - Windows(n, size, overlap, 0)[k].start <= size
  {
    WindowShape(n, size, overlap, 0);
  }

  /** Each window's text is non-empty, no longer than a window, and has no white space at its ends. */
  lemma WindowTextFacts(text: string, size: nat, overlap: nat, texts: seq<string>, k: nat)
    requires Ends(|text|, size, overlap, 0) && AreWindowTexts(text, size, overlap, texts) && k < |texts|
    ensures texts[k] != "" && |texts[k]| <= size && texts[k] == Strip(texts[k])
  {
    var places :| AreTrims(text, Windows(|text|, size, overlap, 0), texts, places);
    WindowIsNoLonger(|text|, size, overlap, places[k]);
    TrimFacts(text, Windows(|text|, size, overlap, 0)[places[k]], texts[k]);
  }

  /** `t` is a slice of the text around position `i`. */
  ghost predicate Holds(text: string, t: string, i: nat) {
    exists from: nat, to: nat :: from <= i < to <= |text| && t == text[from..to]
  }

  lemma WindowHolds(text: string, ws: seq<Window>, texts: seq<string>, places: seq<nat>, j: nat, i: nat)
    requires AreTrims(text, ws, texts, places) && j < |ws| && ws[j].start <= i < ws[j].end
    requires i < |text| && !IsSpace(text[i])
    ensures exists c :: 0 <= c < |texts| && Holds(text, texts[c], i)
  {
    var c :| 0 <= c < |places| && places[c] == j;
    var from: nat, to: nat :| TrimAt(text, ws[j], texts[c], from, to);
    assert Holds(text, texts[c], i);
  }

  /** Every character that is not white space survives into some chunk. */
  lemma NoCharacterIsLost(text: string, size: nat, overlap: nat, texts: seq<string>, i: nat)
    requires Ends(|text|, size, overlap, 0) && AreWindowTexts(text, size, overlap, texts)
    requires i < |text| && !IsSpace(text[i])
    ensures exists c :: 0 <= c < |texts| && Holds(text, texts[c], i)
  {
    var places :| AreTrims(text, Windows(|text|, size, overlap, 0), texts, places);
    var j := CoveringWindow(|text|, size, overlap, 0, i, i + 1);
    WindowHolds(text, Windows(|text|, size, overlap, 0), texts, places, j, i);
  }

  /** The windows before `start` are `visited`. */
  ghost predicate Visited(n: nat, size: nat, overlap: nat, visited: seq<Window>, start: nat)
    requires Ends(n, size, overlap, 0)
  {
    start < n && Windows(n, size, overlap, 0) == visited + Windows(n, size, overlap, start)
  }

  lemma VisitOne(n: nat, size: nat, overlap: nat, visited: seq<Window>, start: nat)
    requires Ends(n, size, overlap, 0) && Visited(n, size, overlap, visited, start)
    ensures var end := WindowEnd(n, size, start);
            var more := visited + [Window(start, end)];
            if n <= end then more == Windows(n, size, overlap, 0)
            else start < end - overlap && Visited(n, size, overlap, more, end - overlap)
  {
  }

  /** The loop stands at `start`, with the texts of the windows before it. */
  ghost predicate StandsAt(text: string, size: nat, overlap: nat, visited: seq<Window>, start: nat,
                           texts: seq<string>, places: seq<nat>)
    requires Ends(|text|, size, overlap, 0)
  {
    Visited(|text|, size, overlap, visited, start) && AreTrims(text, visited, texts, places)
  }

  lemma StartsThere(text: string, size: nat, overlap: nat)
    requires Ends(|text|, size, overlap, 0) && text != ""
    ensures StandsAt(text, size, overlap, [], 0, [], [])
  {
    var ws := Windows(|text|, size, overlap, 0);
    assert [] + ws == ws;
  }

  /** One turn of the loop: the text of the window `w`, unless it is blank. */
  method AppendTrim(texts: seq<string>, text: string, w: Window, ghost visited: seq<Window>, ghost places: seq<nat>)
    returns (more: seq<string>, ghost places': seq<nat>)
    requires w.start <= w.end <= |text| && AreTrims(text, visited, texts, places)
    ensures AreTrims(text, visited + [w], more, places')
  {
    var chunk := Strip(text[w.start..w.end]);
    TrimWindow(text, w);
    if chunk != "" {
      OneMoreTrim(text, visited, w, texts, chunk, places);
      more, places' := texts + [chunk], places + [|visited|];
    } else {
      OneMoreBlank(text, visited, w, texts, places);
      more, places' := texts, places;
    }
  }

  /** The window loop of `chunk_text`, on a normalized text. */
  method WindowTexts(text: string, size: nat, overlap: nat) returns (texts: seq<string>)
    requires Ends(|text|, size, overlap, 0) && text != ""
    ensures AreWindowTexts(text, size, overlap, texts)
  {
    texts := [];
    var start := 0;
    ghost var visited: seq<Window>, places: seq<nat> := [], [];
    StartsThere(text, size, overlap);
    while start < |text|
      invariant 0 <= start < |text| && StandsAt(text, size, overlap, visited, start, texts, places)
      decreases |text| - start
    {
      var end := WindowEnd(|text|, size, start);
      VisitOne(|text|, size, overlap, visited, start);
      texts, places := AppendTrim(texts, text, Window(start, end), visited, places);
      visited := visited + [Window(start, end)];
      if |text| <= end {
        break;
      }
      start := if end - overlap > 0 then end - overlap else 0;
    }
  }

  /** `chunk_text`. */
  method ChunkText(text: string, size: nat, overlap: nat, source: string) returns (chunks: seq<Chunk>)
    requires Ends(|Normalize(text)|, size, overlap, 0)
    ensures AreWindowTexts(Normalize(text), size, overlap, TextsOf(chunks)) && AreNumbered(chunks, source)
  {
    var normalized := Normalize(text);
    if normalized == "" {
      return [];
    }
    var texts := WindowTexts(normalized, size, overlap);
    chunks := NumberTexts(texts, source);
  }

  method NumberTexts(texts: seq<string>, source: string) returns (chunks: seq<Chunk>)
    ensures TextsOf(chunks) == texts && AreNumbered(chunks, source)
  {
    chunks := [];
    for i := 0 to |texts|
      invariant |chunks| == i && forall k :: 0 <= k < i ==> chunks[k] == Chunk(texts[k], source, k, |texts|)
    {
      chunks := chunks + [Chunk(texts[i], source, i, |texts|)];
    }
  }

  const CHUNK_SIZE := 800
  const OVERLAP := 150

  /** The blocks are the window texts of the sections. */
  ghost predicate AreSectionTexts(sections: seq<string>, blocks: seq<seq<string>>) {
    && |blocks| == |sections|
    && forall k :: 0 <= k < |sections| ==> AreWindowTexts(Normalize(sections[k]), CHUNK_SIZE, OVERLAP, blocks[k])
  }

  ghost predicate AllFrom(chunks: seq<Chunk>, source: string) {
    forall k :: 0 <= k < |chunks| ==> chunks[k].source == source
  }

  method Renumber(items: seq<Chunk>, source: string) returns (chunks: seq<Chunk>)
    requires AllFrom(items, source)
    ensures TextsOf(chunks) == TextsOf(items) && AreNumbered(chunks, source)
  {
    chunks := items;
    var total := |chunks|;
    for index := 0 to total
      invariant |chunks| == total && AllFrom(chunks, source) && TextsOf(chunks) == TextsOf(items)
      invariant forall k :: 0 <= k < index ==> chunks[k].chunkIndex == k && chunks[k].totalChunks == total
    {
      SameTexts(chunks, index, total);
      chunks := chunks[index := chunks[index].(chunkIndex := index, totalChunks := total)];
    }
  }

  lemma SameTexts(chunks: seq<Chunk>, index: nat, total: nat)
    requires index < |chunks|
    ensures TextsOf(chunks[index := chunks[index].(chunkIndex := index, totalChunks := total)]) == TextsOf(chunks)
  {
  }

  lemma TextsOfBoth(a: seq<Chunk>, b: seq<Chunk>)
    ensures TextsOf(a + b) == TextsOf(a) + TextsOf(b)
  {
  }

  /** `chunk_markdown`: the sections one after the other, then renumbered across the document. */
  method ChunkMarkdown(markdown: string, source: string)
    returns (chunks: seq<Chunk>, ghost blocks: seq<seq<string>>)
    ensures AreSectionTexts(Sections(markdown), blocks)
    ensures TextsOf(chunks) == Concat(blocks) && AreNumbered(chunks, source)
  {
    var sections := Sections(markdown);
    chunks, blocks := [], [];
    for i := 0 to |sections|
      invariant AreSectionTexts(sections[..i], blocks)
      invariant TextsOf(chunks) == Concat(blocks) && AllFrom(chunks, source)
    {
      var more := ChunkText(sections[i], CHUNK_SIZE, OVERLAP, source);
      TextsOfBoth(chunks, more);
      ConcatSnoc(blocks, TextsOf(more));
      OneMoreSection(sections, i, blocks, TextsOf(more));
      chunks, blocks := chunks + more, blocks + [TextsOf(more)];
    }
    assert sections[..|sections|] == sections;
    chunks := Renumber(chunks, source);
  }

  lemma OneMoreSection(sections: seq<string>, i: nat, blocks: seq<seq<string>>, texts: seq<string>)
    requires i < |sections| && AreSectionTexts(sections[..i], blocks)
    requires AreWindowTexts(Normalize(sections[i]), CHUNK_SIZE, OVERLAP, texts)
    ensures AreSectionTexts(sections[..i + 1], blocks + [texts])
  {
    assert sections[..i + 1] == sections[..i] + [sections[i]];
  }
}
