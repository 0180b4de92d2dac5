/** Chunking a knowledge document: long paragraphs are cut greedily between words. */
module WordPacking {
  import opened Words

  /** A group of words may become a chunk if it fits, or if it is a single oversized word. */
  ghost predicate Fits(ws: seq<string>, maxChars: int) {
    |Join(ws)| <= maxChars || |ws| <= 1
  }

  /** The groups the greedy loop makes when `current` is open and `ws` are still to come. */
  ghost function Pack(current: seq<string>, ws: seq<string>, maxChars: int): seq<seq<string>>
    decreases |ws|
  {
    if ws == [] then (if current == [] then [] else [current])
    else if |Join(current + [ws[0]])| <= maxChars then Pack(current + [ws[0]], ws[1..], maxChars)
    else (if current == [] then [] else [current]) + Pack([ws[0]], ws[1..], maxChars)
  }

  ghost function JoinAll(groups: seq<seq<string>>): seq<string> {
    if groups == [] then [] else [Join(groups[0])] + JoinAll(groups[1..])
  }

  /** The loop of `_split_long_paragraph`. */
  method SplitLongParagraph(paragraph: string, maxChars: int) returns (chunks: seq<string>)
    ensures chunks == JoinAll(Pack([], Split(paragraph), maxChars))
  {
    var words := Split(paragraph);
    if words == [] {
      return [];
    }
    chunks := [];
    var current: seq<string> := [];
    ghost var closed := [];
    for i := 0 to |words|
      invariant chunks == JoinAll(closed)
      invariant closed + Pack(current, words[i..], maxChars) == Pack([], words, maxChars)
    {
      assert words[i..][0] == words[i] && words[i..][1..] == words[i + 1..];
      var candidate := current + [words[i]];
      if |Join(candidate)| <= maxChars {
        current := candidate;
      } else {
        if current != [] {
          JoinAllSnoc(closed, current);
          ghost var later := Pack([words[i]], words[i + 1..], maxChars);
          assert closed + ([current] + later) == (closed + [current]) + later;
          chunks := chunks + [Join(current)];
          closed := closed + [current];
        } else {
          assert [] + Pack([words[i]], words[i + 1..], maxChars) == Pack([words[i]], words[i + 1..], maxChars);
        }
        current := [words[i]];
      }
    }
    assert words[|words|..] == [] && closed + [] == closed;
    if current != [] {
      JoinAllSnoc(closed, current);
      chunks := chunks + [Join(current)];
    }
  }

  /** The chunks hold the words in order, joined by single spaces; each fits unless it is one word; and the first
      word of the next chunk would no longer fit. */
  ghost predicate IsGreedy(chunks: seq<string>, words: seq<string>, maxChars: int) {
    && WordsOf(chunks) == words
    && (forall i :: 0 <= i < |chunks| ==> IsJoined(chunks[i], maxChars))
    && (forall i :: 0 < i < |chunks| ==> IsFull(Split(chunks[i - 1]), Split(chunks[i]), maxChars))
  }

  ghost predicate IsJoined(chunk: string, maxChars: int) {
    Split(chunk) != [] && chunk == Join(Split(chunk)) && Storable(chunk, maxChars)
  }

  /** The first word of `next` would not fit behind `group`. */
  ghost predicate IsFull(group: seq<string>, next: seq<string>, maxChars: int) {
    next != [] && |Join(group + [next[0]])| > maxChars
  }

  /** No list of storable texts with these words is shorter. */
  ghost predicate NoneShorter(chunks: seq<string>, words: seq<string>, maxChars: int) {
    forall other: seq<string> :: WordsOf(other) == words && AllStorable(other, maxChars) ==> |chunks| <= |other|
  }

  ghost predicate AllStorable(texts: seq<string>, maxChars: int) {
    forall c :: c in texts ==> Storable(c, maxChars)
  }

  lemma {:induction false} JoinAllSnoc(groups: seq<seq<string>>, g: seq<string>)
    ensures JoinAll(groups + [g]) == JoinAll(groups) + [Join(g)]
  {
    if groups == [] {
      assert [] + [g] == [g];
    } else {
      JoinAllSnoc(groups[1..], g);
      assert (groups + [g])[1..] == groups[1..] + [g];
    }
  }

  // ----- the groups

  lemma {:induction false} PackKeepsWords(current: seq<string>, ws: seq<string>, maxChars: int)
    ensures Concat(Pack(current, ws, maxChars)) == current + ws
    decreases |ws|
  {
    if ws == [] {
      assert Concat([current]) == current + Concat<string>([]);
    } else {
      var next := current + [ws[0]];
      if |Join(next)| <= maxChars {
        PackKeepsWords(next, ws[1..], maxChars);
      } else {
        PackKeepsWords([ws[0]], ws[1..], maxChars);
        if current == [] {
          assert [] + Pack([ws[0]], ws[1..], maxChars) == Pack([ws[0]], ws[1..], maxChars);
        } else {
          assert ([current] + Pack([ws[0]], ws[1..], maxChars))[1..] == Pack([ws[0]], ws[1..], maxChars);
        }
      }
      assert current + ws == next + ws[1..] == current + ([ws[0]] + ws[1..]);
    }
  }

  lemma {:induction false} PackFits(current: seq<string>, ws: seq<string>, maxChars: int)
    requires Fits(current, maxChars)
    ensures forall k :: 0 <= k < |Pack(current, ws, maxChars)| ==>
              Fits(Pack(current, ws, maxChars)[k], maxChars) && Pack(current, ws, maxChars)[k] != []
    decreases |ws|
  {
    if ws != [] {
      if |Join(current + [ws[0]])| <= maxChars {
        PackFits(current + [ws[0]], ws[1..], maxChars);
      } else {
        PackFits([ws[0]], ws[1..], maxChars);
      }
    }
  }

  lemma {:induction false} JoinOfMore(a: seq<string>, b: seq<string>)
    ensures |Join(b)| <= |Join(a + b)| && |Join(a)| <= |Join(a + b)|
    ensures a != [] && b != [] ==> |Join(a)| < |Join(a + b)| && |Join(b)| < |Join(a + b)|
  {
    if a == [] {
      assert a + b == b;
    } else if b == [] {
      assert a + b == a;
    } else {
      assert (a + b)[0] == a[0] && (a + b)[1..] == a[1..] + b;
      JoinOfMore(a[1..], b);
    }
  }

  /** A group that holds too long a group of several words inside is too long itself. */
  lemma HoldingTooMuch(before: seq<string>, inner: seq<string>, after: seq<string>, maxChars: int)
    requires !Fits(inner, maxChars)
    ensures !Fits(before + inner + after, maxChars)
  {
    JoinOfMore(before, inner);
    JoinOfMore(before + inner, after);
  }

  /** The greedy split is never behind: with a group open, it needs no more groups than any split of a
      text that ends with the open group's words and the words to come. */
  lemma {:induction false} GreedyIsAhead(before: seq<string>, current: seq<string>, ws: seq<string>,
                                         other: seq<seq<string>>, maxChars: int)
    requires current != [] && Concat(other) == before + current + ws
    requires forall k :: 0 <= k < |other| ==> Fits(other[k], maxChars)
    ensures |Pack(current, ws, maxChars)| <= |other|
    decreases |ws|, |other|
  {
    assert other != [];
    if ws != [] {
      var next := current + [ws[0]];
      if |Join(next)| <= maxChars {
        assert before + current + ws == before + next + ws[1..];
        GreedyIsAhead(before, next, ws[1..], other, maxChars);
      } else {
        var first, rest := other[0], other[1..];
        var all := before + current + ws;
        assert all == first + Concat(rest);
        assert Concat(rest) == all[|first|..];
        if |first| <= |before| {
          assert Concat(rest) == before[|first|..] + current + ws;
          GreedyIsAhead(before[|first|..], current, ws, rest, maxChars);
        } else {
          if |before| + |next| <= |first| {
            assert all[..|first|] == first && all[|before|..|before| + |next|] == next;
            assert first == before + next + first[|before| + |next|..];
            HoldingTooMuch(before, next, first[|before| + |next|..], maxChars);
          }
          var left := (before + current)[|first|..];
          assert Concat(rest) == left + [ws[0]] + ws[1..];
          GreedyIsAhead(left, [ws[0]], ws[1..], rest, maxChars);
        }
      }
    }
  }

  lemma PackIsShortest(ws: seq<string>, other: seq<seq<string>>, maxChars: int)
    requires Concat(other) == ws && forall k :: 0 <= k < |other| ==> Fits(other[k], maxChars)
    ensures |Pack([], ws, maxChars)| <= |other|
  {
    if ws != [] {
      assert [] + [ws[0]] == [ws[0]] && ws == [] + [ws[0]] + ws[1..];
      GreedyIsAhead([], [ws[0]], ws[1..], other, maxChars);
    }
  }

  // ----- the chunks

  /** A text the database may store as one chunk: short enough, or holding at most one word. */
  ghost predicate Storable(chunk: string, maxChars: int) {
    |chunk| <= maxChars || |Split(chunk)| <= 1
  }

  lemma {:induction false} ChunksOfGroups(groups: seq<seq<string>>, maxChars: int)
    requires forall g, i :: 0 <= g < |groups| && 0 <= i < |groups[g]| ==> IsWord(groups[g][i])
    requires forall g :: 0 <= g < |groups| ==> Fits(groups[g], maxChars)
    ensures WordsOf(JoinAll(groups)) == Concat(groups) && |JoinAll(groups)| == |groups|
    ensures forall c :: c in JoinAll(groups) ==> Storable(c, maxChars)
  {
    if groups != [] {
      SplitJoin(groups[0]);
      ChunksOfGroups(groups[1..], maxChars);
      assert JoinAll(groups)[1..] == JoinAll(groups[1..]);
    }
  }

  lemma {:induction false} GroupsOfChunks(texts: seq<string>, maxChars: int) returns (groups: seq<seq<string>>)
    requires forall c :: c in texts ==> Storable(c, maxChars)
    ensures |groups| == |texts| && Concat(groups) == WordsOf(texts)
    ensures forall g :: 0 <= g < |groups| ==> Fits(groups[g], maxChars)
  {
    if texts == [] {
      groups := [];
    } else {
      var rest := GroupsOfChunks(texts[1..], maxChars);
      assert Storable(texts[0], maxChars);
      JoinIsShortest(texts[0]);
      groups := [Split(texts[0])] + rest;
      assert groups[1..] == rest;
    }
  }

  lemma {:induction false} ConcatMembers(groups: seq<seq<string>>, g: nat, i: nat)
    requires g < |groups| && i < |groups[g]|
    ensures groups[g][i] in Concat(groups)
  {
    if g > 0 {
      ConcatMembers(groups[1..], g - 1, i);
    }
  }

  lemma SplitParagraph(paragraph: string, maxChars: int)
    ensures var chunks := JoinAll(Pack([], Split(paragraph), maxChars));
            && WordsOf(chunks) == Split(paragraph)
            && (forall c :: c in chunks ==> Storable(c, maxChars))
            && |chunks| == |Pack([], Split(paragraph), maxChars)|
  {
    var groups := Pack([], Split(paragraph), maxChars);
    PackKeepsWords([], Split(paragraph), maxChars);
    assert [] + Split(paragraph) == Split(paragraph);
    PackFits([], Split(paragraph), maxChars);
    forall g, i | 0 <= g < |groups| && 0 <= i < |groups[g]|
      ensures IsWord(groups[g][i])
    {
      ConcatMembers(groups, g, i);
    }
    ChunksOfGroups(groups, maxChars);
  }

  /** The greedy split keeps the words in order, keeps every chunk within the limit unless it is one
      oversized word, and no list of texts doing both is shorter. */
  lemma GreedySplitIsOptimal(paragraph: string, maxChars: int, other: seq<string>)
    requires WordsOf(other) == Split(paragraph) && forall c :: c in other ==> Storable(c, maxChars)
    ensures var chunks := JoinAll(Pack([], Split(paragraph), maxChars));
            && WordsOf(chunks) == Split(paragraph)
            && (forall c :: c in chunks ==> Storable(c, maxChars))
            && |chunks| <= |other|
  {
    SplitParagraph(paragraph, maxChars);
    var groups := GroupsOfChunks(other, maxChars);
    PackIsShortest(Split(paragraph), groups, maxChars);
  }

  /** The next group starts with a word that did not fit. */
  lemma {:induction false} PackIsTight(current: seq<string>, ws: seq<string>, maxChars: int)
    ensures var p := Pack(current, ws, maxChars);
            && (current != [] ==> p != [] && current <= p[0])
            && forall g :: 0 < g < |p| ==> IsFull(p[g - 1], p[g], maxChars)
    decreases |ws|
  {
    if ws != [] {
      if |Join(current + [ws[0]])| <= maxChars {
        PackIsTight(current + [ws[0]], ws[1..], maxChars);
      } else {
        PackIsTight([ws[0]], ws[1..], maxChars);
        FullThenRest(current, ws[0], Pack([ws[0]], ws[1..], maxChars), maxChars);
      }
    }
  }

  lemma FullThenRest(current: seq<string>, word: string, rest: seq<seq<string>>, maxChars: int)
    requires |Join(current + [word])| > maxChars && rest != [] && [word] <= rest[0]
    requires forall g :: 0 < g < |rest| ==> IsFull(rest[g - 1], rest[g], maxChars)
    ensures var p := (if current == [] then [] else [current]) + rest;
            forall g :: 0 < g < |p| ==> IsFull(p[g - 1], p[g], maxChars)
  {
    if current == [] {
      assert [] + rest == rest;
    } else {
      var p := [current] + rest;
      forall g | 0 < g < |p|
        ensures IsFull(p[g - 1], p[g], maxChars)
      {
        if g > 1 {
          assert p[g - 1] == rest[g - 2] && p[g] == rest[g - 1];
        }
      }
    }
  }

  lemma {:induction false} JoinAllAt(groups: seq<seq<string>>, k: nat)
    requires k < |groups|
    ensures |JoinAll(groups)| == |groups| && JoinAll(groups)[k] == Join(groups[k])
  {
    if k > 0 {
      JoinAllAt(groups[1..], k - 1);
    } else if |groups| > 1 {
      JoinAllAt(groups[1..], 0);
    }
  }

  lemma GroupWords(words: seq<string>, maxChars: int, k: nat)
    requires (forall i :: 0 <= i < |words| ==> IsWord(words[i])) && k < |Pack([], words, maxChars)|
    ensures var group := Pack([], words, maxChars)[k]; group != [] && Split(Join(group)) == group
  {
    var groups := Pack([], words, maxChars);
    PackKeepsWords([], words, maxChars);
    assert [] + words == words;
    PackFits([], words, maxChars);
    forall i | 0 <= i < |groups[k]|
      ensures IsWord(groups[k][i])
    {
      ConcatMembers(groups, k, i);
    }
    SplitJoin(groups[k]);
  }

  lemma ChunkOfGroup(paragraph: string, maxChars: int, k: nat)
    requires k < |Pack([], Split(paragraph), maxChars)|
    ensures var groups := Pack([], Split(paragraph), maxChars);
            var chunks := JoinAll(groups);
            && |chunks| == |groups| && groups[k] != []
            && Split(chunks[k]) == groups[k] && chunks[k] == Join(groups[k]) && Storable(chunks[k], maxChars)
  {
    SplitParagraph(paragraph, maxChars);
    GroupWords(Split(paragraph), maxChars, k);
    JoinAllAt(Pack([], Split(paragraph), maxChars), k);
  }

  lemma PackedIsGreedy(paragraph: string, maxChars: int)
    ensures IsGreedy(JoinAll(Pack([], Split(paragraph), maxChars)), Split(paragraph), maxChars)
  {
    var groups := Pack([], Split(paragraph), maxChars);
    var chunks := JoinAll(groups);
    SplitParagraph(paragraph, maxChars);
    PackIsTight([], Split(paragraph), maxChars);
    forall i | 0 <= i < |chunks|
      ensures Split(chunks[i]) == groups[i] && IsJoined(chunks[i], maxChars)
    {
      ChunkOfGroup(paragraph, maxChars, i);
    }
  }

  lemma PackedIsShortest(paragraph: string, maxChars: int)
    ensures NoneShorter(JoinAll(Pack([], Split(paragraph), maxChars)), Split(paragraph), maxChars)
  {
    forall other: seq<string> | WordsOf(other) == Split(paragraph) && AllStorable(other, maxChars)
      ensures |JoinAll(Pack([], Split(paragraph), maxChars))| <= |other|
    {
      GreedySplitIsOptimal(paragraph, maxChars, other);
    }
  }

  // ----- the whole document

  lemma {:induction false} WordsOfConcat(a: seq<string>, b: seq<string>)
    ensures WordsOf(a + b) == WordsOf(a) + WordsOf(b)
  {
    if a == [] {
      assert a + b == b;
    } else {
      assert (a + b)[1..] == a[1..] + b;
      WordsOfConcat(a[1..], b);
    }
  }

  /** The chunks of one line: none for a blank one, its stripped text if that is within the limit, otherwise the
      greedy split of its words, which no admissible list is shorter than. */
  ghost predicate IsBlockOf(line: string, block: seq<string>, maxChars: int) {
    var paragraph := Strip(line);
    if paragraph == "" then block == []
    else if |paragraph| <= maxChars then block == [paragraph]
    else IsGreedy(block, Split(line), maxChars) && NoneShorter(block, Split(line), maxChars)
  }

  lemma BlockFacts(line: string, block: seq<string>, maxChars: int)
    requires IsBlockOf(line, block, maxChars)
    ensures WordsOf(block) == Split(line) && AllStorable(block, maxChars)
  {
    SplitStrip(line);
    if Strip(line) != "" && |Strip(line)| <= maxChars {
      assert WordsOf([Strip(line)]) == Split(Strip(line)) + WordsOf([]);
    }
  }

  /** The blocks are those of the lines, one after the other. */
  ghost predicate AreBlocks(lines: seq<string>, blocks: seq<seq<string>>, maxChars: int) {
    |blocks| == |lines| && forall i :: 0 <= i < |lines| ==> IsBlockOf(lines[i], blocks[i], maxChars)
  }

  lemma {:induction false} BlocksFacts(lines: seq<string>, blocks: seq<seq<string>>, maxChars: int)
    requires AreBlocks(lines, blocks, maxChars)
    ensures WordsOf(Concat(blocks)) == WordsOf(lines) && AllStorable(Concat(blocks), maxChars)
  {
    if lines != [] {
      BlocksFacts(lines[1..], blocks[1..], maxChars);
      BlockFacts(lines[0], blocks[0], maxChars);
      WordsOfConcat(blocks[0], Concat(blocks[1..]));
    }
  }

  /** The chunks of one line. */
  method ChunkLine(line: string, maxChars: int) returns (block: seq<string>)
    ensures IsBlockOf(line, block, maxChars)
  {
    var paragraph := Strip(line);
    SplitStrip(line);
    if paragraph == "" {
      return [];
    }
    if |paragraph| > maxChars {
      block := SplitLongParagraph(paragraph, maxChars);
      PackedIsGreedy(paragraph, maxChars);
      PackedIsShortest(paragraph, maxChars);
    } else {
      block := [paragraph];
    }
  }

  /** `_chunk_content`: the chunks fall into blocks, one for each line of the content. Over the whole content no
      word is lost, added or moved, and every chunk is storable. */
  method ChunkContent(content: string, maxChars: int) returns (chunks: seq<string>, ghost blocks: seq<seq<string>>)
    ensures AreLines(content, SplitLines(content))
    ensures AreBlocks(SplitLines(content), blocks, maxChars) && chunks == Concat(blocks)
    ensures WordsOf(chunks) == Split(content) && AllStorable(chunks, maxChars)
  {
    var lines := SplitLines(content);
    chunks, blocks := [], [];
    for i := 0 to |lines|
      invariant AreBlocks(lines[..i], blocks, maxChars) && chunks == Concat(blocks)
    {
      var block := ChunkLine(lines[i], maxChars);
      ConcatSnoc(blocks, block);
      OneMoreBlock(lines, i, blocks, block, maxChars);
      chunks, blocks := chunks + block, blocks + [block];
    }
    assert lines[..|lines|] == lines;
    ContentFacts(content, blocks, maxChars);
  }

  lemma OneMoreBlock(lines: seq<string>, i: nat, blocks: seq<seq<string>>, block: seq<string>, maxChars: int)
    requires i < |lines| && AreBlocks(lines[..i], blocks, maxChars) && IsBlockOf(lines[i], block, maxChars)
    ensures AreBlocks(lines[..i + 1], blocks + [block], maxChars)
  {
    forall k | 0 <= k < |lines[..i + 1]|
      ensures IsBlockOf(lines[..i + 1][k], (blocks + [block])[k], maxChars)
    {
      BlockAt(lines, i, blocks, block, maxChars, k);
    }
  }

  lemma BlockAt(lines: seq<string>, i: nat, blocks: seq<seq<string>>, block: seq<string>, maxChars: int, k: nat)
    requires k <= i < |lines| && AreBlocks(lines[..i], blocks, maxChars) && IsBlockOf(lines[i], block, maxChars)
    ensures IsBlockOf(lines[k], (blocks + [block])[k], maxChars)
  {
    if k < i {
      assert lines[..i][k] == lines[k] && IsBlockOf(lines[..i][k], blocks[k], maxChars);
    }
  }

  lemma ContentFacts(content: string, blocks: seq<seq<string>>, maxChars: int)
    requires AreBlocks(SplitLines(content), blocks, maxChars)
    ensures AreLines(content, SplitLines(content))
    ensures WordsOf(Concat(blocks)) == Split(content) && AllStorable(Concat(blocks), maxChars)
  {
    SplitLinesAreLines(content);
    BlocksFacts(SplitLines(content), blocks, maxChars);
    SplitOfLines(content);
  }
}
