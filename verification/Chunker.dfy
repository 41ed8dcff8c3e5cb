/**
 Cutting a document's text into token-bounded chunks (ingest.py:413-505): paragraphs, long ones by line, long lines by
 word, and the resulting blocks packed greedily with an overlap. The token counter is a parameter.
 */
module Chunker {
  import opened Strings
  import opened ChunkWindows

  datatype Block = Block(text: string, tokens: nat)

  type Counter = string -> nat

  // ---------------------------------------------------------------- blocks

  function Flush(words: seq<string>, tokens: nat): seq<Block> { if words == [] then [] else [Block(Join(words, " "), tokens)] }

  /** The words of a long line, gathered while they fit. */
  function WordBlocks(tok: Counter, words: seq<string>, current: seq<string>, tokens: nat): seq<Block>
    decreases |words|
  {
    if words == [] then Flush(current, tokens)
    else if words[0] == "" then WordBlocks(tok, words[1..], current, tokens)
    else
      var w := tok(" " + words[0]);
      if tokens + w > MAX_TOKENS then Flush(current, tokens) + WordBlocks(tok, words[1..], [words[0]], w)
      else WordBlocks(tok, words[1..], current + [words[0]], tokens + w)
  }

  function LineBlocks(tok: Counter, raw: string): seq<Block> {
    var line := Trim(raw);
    if line == "" then [] else if tok(line) <= MAX_TOKENS then [Block(line, tok(line))] else WordBlocks(tok, Split(line, " "), [], 0)
  }

  function LinesBlocks(tok: Counter, lines: seq<string>): seq<Block> {
    if lines == [] then [] else LineBlocks(tok, lines[0]) + LinesBlocks(tok, lines[1..])
  }

  function ParagraphBlocks(tok: Counter, raw: string): seq<Block> {
    var p := Trim(raw);
    if p == "" then [] else if tok(p) <= MAX_TOKENS then [Block(p, tok(p))] else LinesBlocks(tok, Split(p, "\n"))
  }

  function ParagraphsBlocks(tok: Counter, paragraphs: seq<string>): seq<Block> {
    if paragraphs == [] then [] else ParagraphBlocks(tok, paragraphs[0]) + ParagraphsBlocks(tok, paragraphs[1..])
  }

  function TextBlocks(tok: Counter, text: string): seq<Block> { ParagraphsBlocks(tok, Split(Trim(text), "\n\n")) }

  function Texts(bs: seq<Block>): seq<string> { seq(|bs|, k requires 0 <= k < |bs| => bs[k].text) }

  // ---------------------------------------------------------------- no ink is lost

  lemma TextsAppend(a: seq<Block>, b: seq<Block>)
    ensures Texts(a + b) == Texts(a) + Texts(b)
  {
  }

  lemma InkTogether(a: seq<Block>, b: seq<Block>)
    ensures InkOf(Texts(a + b)) == InkOf(Texts(a)) + InkOf(Texts(b))
  {
    TextsAppend(a, b);
    InkOfAppend(Texts(a), Texts(b));
  }

  lemma InkOne(s: string)
    ensures InkOf([s]) == Ink(s)
  {
    assert [s][1..] == [];
    assert InkOf([]) == "";
  }

  lemma FlushInk(words: seq<string>, tokens: nat)
    ensures InkOf(Texts(Flush(words, tokens))) == InkOf(words)
  {
    if words != [] {
      InkJoin(words, " ");
      InkOne(Join(words, " "));
      assert Texts(Flush(words, tokens)) == [Join(words, " ")];
    } else {
      assert Texts(Flush(words, tokens)) == [];
    }
  }

  lemma {:induction false} WordBlocksInk(tok: Counter, words: seq<string>, current: seq<string>, tokens: nat)
    ensures InkOf(Texts(WordBlocks(tok, words, current, tokens))) == InkOf(current) + InkOf(words)
    decreases |words|
  {
    hide Ink, Texts, Flush, InkOf;
    if words == [] {
      FlushInk(current, tokens);
      InkHead(words);
    } else {
      InkHead(words);
      var w := tok(" " + words[0]);
      if words[0] == "" {
        NoInk();
        WordBlocksInk(tok, words[1..], current, tokens);
      } else if tokens + w > MAX_TOKENS {
        FlushInk(current, tokens);
        WordBlocksInk(tok, words[1..], [words[0]], w);
        InkTogether(Flush(current, tokens), WordBlocks(tok, words[1..], [words[0]], w));
        InkOne(words[0]);
      } else {
        WordBlocksInk(tok, words[1..], current + [words[0]], tokens + w);
        InkOfAppend(current, [words[0]]);
        InkOne(words[0]);
      }
    }
  }

  lemma InkHead(words: seq<string>)
    ensures InkOf(words) == if words == [] then "" else Ink(words[0]) + InkOf(words[1..])
  {
  }

  lemma NoInk()
    ensures Ink("") == ""
  {
  }

  lemma OneBlockInk(s: string, n: nat)
    ensures InkOf(Texts([Block(s, n)])) == Ink(s)
  {
    assert Texts([Block(s, n)]) == [s];
    InkOne(s);
  }

  lemma NoBlocksInk()
    ensures InkOf(Texts([])) == ""
  {
  }

  lemma LineInk(tok: Counter, raw: string)
    ensures InkOf(Texts(LineBlocks(tok, raw))) == Ink(raw)
  {
    hide Ink, Texts, InkOf, Trim, Split, WordBlocks;
    var line := Trim(raw);
    InkTrim(raw);
    NoInk();
    NoBlocksInk();
    OneBlockInk(line, tok(line));
    InkSplit(line, " ");
    InkHead([]);
    WordBlocksInk(tok, Split(line, " "), [], 0);
  }

  lemma {:induction false} LinesInk(tok: Counter, lines: seq<string>)
    ensures InkOf(Texts(LinesBlocks(tok, lines))) == InkOf(lines)
  {
    hide Ink, Texts, InkOf, LineBlocks;
    InkHead(lines);
    if lines == [] {
      NoBlocksInk();
    } else {
      LineInk(tok, lines[0]);
      LinesInk(tok, lines[1..]);
      InkTogether(LineBlocks(tok, lines[0]), LinesBlocks(tok, lines[1..]));
    }
  }

  lemma ParagraphInk(tok: Counter, raw: string)
    ensures InkOf(Texts(ParagraphBlocks(tok, raw))) == Ink(raw)
  {
    hide Ink, Texts, InkOf, Trim, Split, LinesBlocks;
    var p := Trim(raw);
    InkTrim(raw);
    NoInk();
    NoBlocksInk();
    OneBlockInk(p, tok(p));
    InkSplit(p, "\n");
    LinesInk(tok, Split(p, "\n"));
  }

  lemma {:induction false} ParagraphsInk(tok: Counter, paragraphs: seq<string>)
    ensures InkOf(Texts(ParagraphsBlocks(tok, paragraphs))) == InkOf(paragraphs)
  {
    hide Ink, Texts, InkOf, ParagraphBlocks;
    InkHead(paragraphs);
    if paragraphs == [] {
      NoBlocksInk();
    } else {
      ParagraphInk(tok, paragraphs[0]);
      ParagraphsInk(tok, paragraphs[1..]);
      InkTogether(ParagraphBlocks(tok, paragraphs[0]), ParagraphsBlocks(tok, paragraphs[1..]));
    }
  }

  /** The blocks hold every character of the text that is not a space, in order. */
  lemma BlocksKeepInk(tok: Counter, text: string)
    ensures InkOf(Texts(TextBlocks(tok, text))) == Ink(text)
  {
    hide Ink, Texts, InkOf, Trim, Split, ParagraphsBlocks;
    InkTrim(text);
    InkSplit(Trim(text), "\n\n");
    ParagraphsInk(tok, Split(Trim(text), "\n\n"));
  }

  // ---------------------------------------------------------------- blocks fit, but for long words

  predicate Word(s: string) { s != "" && ' ' !in s }

  /** A block is within the limit, or it is one word that is not. */
  predicate Sized(tok: Counter, b: Block) { b.text != "" && (b.tokens <= 512 || (Word(b.text) && b.tokens == tok(" " + b.text))) }

  predicate AllSized(tok: Counter, bs: seq<Block>) { forall b | b in bs :: Sized(tok, b) }

  predicate Words(parts: seq<string>) { forall w | w in parts :: ' ' !in w }

  lemma {:induction false} SplitWords(s: string)
    ensures Words(Split(s, " "))
  {
    if s != "" {
      SplitWords(s[1..]);
    }
  }

  lemma {:induction false} JoinNonEmpty(words: seq<string>)
    requires words != [] && words[0] != ""
    ensures Join(words, " ") != "" && (|words| == 1 ==> Join(words, " ") == words[0])
  {
  }

  /** What has been gathered fits, or is one long word. */
  predicate Gathered(tok: Counter, current: seq<string>, tokens: nat) {
    && (current == [] ==> tokens == 0) && (current != [] ==> Word(current[0]))
    && (tokens <= MAX_TOKENS || (|current| == 1 && tokens == tok(" " + current[0])))
  }

  lemma {:induction false} WordBlocksSized(tok: Counter, words: seq<string>, current: seq<string>, tokens: nat)
    requires Words(words) && Gathered(tok, current, tokens)
    ensures AllSized(tok, WordBlocks(tok, words, current, tokens))
    decreases |words|
  {
    hide Join;
    if current != [] { JoinNonEmpty(current); }
    assert AllSized(tok, Flush(current, tokens));
    if words != [] {
      var w := tok(" " + words[0]);
      assert words[0] in words;
      if words[0] == "" {
        WordBlocksSized(tok, words[1..], current, tokens);
      } else if tokens + w > MAX_TOKENS {
        WordBlocksSized(tok, words[1..], [words[0]], w);
      } else {
        WordBlocksSized(tok, words[1..], current + [words[0]], tokens + w);
      }
    }
  }

  lemma LineSized(tok: Counter, raw: string)
    ensures AllSized(tok, LineBlocks(tok, raw))
  {
    hide Trim, Split, WordBlocks;
    SplitWords(Trim(raw));
    WordBlocksSized(tok, Split(Trim(raw), " "), [], 0);
  }

  lemma {:induction false} LinesSized(tok: Counter, lines: seq<string>)
    ensures AllSized(tok, LinesBlocks(tok, lines))
  {
    hide LineBlocks, Sized;
    if lines != [] {
      LineSized(tok, lines[0]);
      LinesSized(tok, lines[1..]);
    }
  }

  lemma {:induction false} ParagraphsSized(tok: Counter, paragraphs: seq<string>)
    ensures AllSized(tok, ParagraphsBlocks(tok, paragraphs))
  {
    hide LinesBlocks, Trim, Split;
    if paragraphs != [] {
      LinesSized(tok, Split(Trim(paragraphs[0]), "\n"));
      ParagraphsSized(tok, paragraphs[1..]);
    }
  }

  // ---------------------------------------------------------------- blocks are no smaller than they need to be

  /** A paragraph that fits stays one block, and so does a line of one that does not. */
  lemma KeptWhole(tok: Counter, raw: string)
    ensures Trim(raw) != "" && tok(Trim(raw)) <= 512 ==>
              ParagraphBlocks(tok, raw) == [Block(Trim(raw), tok(Trim(raw)))] && LineBlocks(tok, raw) == [Block(Trim(raw), tok(Trim(raw)))]
    ensures Trim(raw) != "" && tok(Trim(raw)) > 512 ==> ParagraphBlocks(tok, raw) == LinesBlocks(tok, Split(Trim(raw), "\n"))
  {
    hide Trim;
  }

  /** The word that a block of a long line would have taken next. */
  predicate Starts(text: string, word: string) { word != "" && word <= text && (|word| < |text| ==> text[|word|] == ' ') }

  /** The block has no room for the first word of the next. */
  predicate Full(tok: Counter, b: Block, next: Block, words: seq<string>) {
    exists w | w in words :: Starts(next.text, w) && b.tokens + tok(" " + w) > 512
  }

  predicate Filled(tok: Counter, bs: seq<Block>, words: seq<string>) { forall k | 0 <= k < |bs| - 1 :: Full(tok, bs[k], bs[k + 1], words) }

  lemma JoinStarts(words: seq<string>)
    requires words != [] && words[0] != ""
    ensures Starts(Join(words, " "), words[0])
  {
  }

  /** The first block of the words continues what has been gathered. */
  lemma {:induction false} FirstWords(tok: Counter, words: seq<string>, current: seq<string>, tokens: nat)
    requires current != [] && current[0] != ""
    ensures
      var bs := WordBlocks(tok, words, current, tokens);
      bs != [] && Starts(bs[0].text, current[0])
    decreases |words|
  {
    hide Join, Starts;
    JoinStarts(current);
    if words != [] {
      FirstWords(tok, words[1..], current, tokens);
      if words[0] != "" {
        FirstWords(tok, words[1..], current + [words[0]], tokens + tok(" " + words[0]));
      }
    }
  }

  lemma NothingToFill(tok: Counter, bs: seq<Block>, words: seq<string>)
    requires |bs| <= 1
    ensures Filled(tok, bs, words)
  {
  }

  lemma FilledMore(tok: Counter, b: Block, rest: seq<Block>, words: seq<string>, word: string)
    requires rest != [] && Filled(tok, rest, words) && word in words && Starts(rest[0].text, word) && b.tokens + tok(" " + word) > 512
    ensures Filled(tok, [b] + rest, words)
  {
    assert Full(tok, b, rest[0], words);
    hide Full;
    var bs := [b] + rest;
    forall k | 0 <= k < |bs| - 1 ensures Full(tok, bs[k], bs[k + 1], words) {
      if k > 0 {
        assert bs[k] == rest[k - 1] && bs[k + 1] == rest[(k - 1) + 1];
      }
    }
  }

  lemma {:induction false} WordsFill(tok: Counter, words: seq<string>, current: seq<string>, tokens: nat, all: seq<string>)
    requires (forall w | w in words :: w in all) && (current != [] ==> current[0] != "")
    ensures Filled(tok, WordBlocks(tok, words, current, tokens), all)
    decreases |words|
  {
    hide Join, Starts;
    NothingToFill(tok, Flush(current, tokens), all);
    hide Filled;
    if words != [] {
      var w := tok(" " + words[0]);
      assert words[0] in words;
      if words[0] == "" {
        WordsFill(tok, words[1..], current, tokens, all);
      } else if tokens + w > MAX_TOKENS {
        WordsFill(tok, words[1..], [words[0]], w, all);
        FirstWords(tok, words[1..], [words[0]], w);
        var rest := WordBlocks(tok, words[1..], [words[0]], w);
        var bs := WordBlocks(tok, words, current, tokens);
        if current != [] {
          assert bs == [Block(Join(current, " "), tokens)] + rest;
          FilledMore(tok, Block(Join(current, " "), tokens), rest, all, words[0]);
        } else {
          assert bs == rest;
        }
      } else {
        WordsFill(tok, words[1..], current + [words[0]], tokens + w, all);
      }
    }
  }

  /** The words of a line that is too long go into blocks that are each as full as they can be. */
  lemma LongLineFilled(tok: Counter, raw: string)
    requires Trim(raw) != "" && tok(Trim(raw)) > 512
    ensures Filled(tok, LineBlocks(tok, raw), Split(Trim(raw), " "))
  {
    hide Trim, Split, WordBlocks;
    var words := Split(Trim(raw), " ");
    WordsFill(tok, words, [], 0, words);
  }

  // ---------------------------------------------------------------- chunks

  function Counts(bs: seq<Block>): seq<nat> { seq(|bs|, k requires 0 <= k < |bs| => bs[k].tokens) }

  function Recounts(tok: Counter, bs: seq<Block>): seq<nat> {
    seq<nat>(|bs|, k requires 0 <= k < |bs| => tok(bs[k].text))
  }

  function Chunk(bs: seq<Block>, w: Window): string
    requires w.start <= w.end <= |bs|
  {
    Join(Texts(bs)[w.start..w.end], "\n\n")
  }

  predicate InRange(bs: seq<Block>, ws: seq<Window>) { forall k | 0 <= k < |ws| :: ws[k].start <= ws[k].end <= |bs| }

  function Chunks(bs: seq<Block>, ws: seq<Window>): seq<string>
    requires InRange(bs, ws)
  {
    seq(|ws|, k requires 0 <= k < |ws| => Chunk(bs, ws[k]))
  }

  /** Stripped, without the blank ones. */
  function NonBlank(chunks: seq<string>): seq<string> {
    if chunks == [] then [] else (if Trim(chunks[0]) == "" then [] else [Trim(chunks[0])]) + NonBlank(chunks[1..])
  }

  /** Stripping and dropping blank chunks loses no ink either. */
  lemma {:induction false} NonBlankKeepsInk(chunks: seq<string>)
    ensures InkOf(NonBlank(chunks)) == InkOf(chunks)
  {
    hide Ink, Trim;
    InkHead(chunks);
    NoInk();
    if chunks != [] {
      InkTrim(chunks[0]);
      NonBlankKeepsInk(chunks[1..]);
      if Trim(chunks[0]) == "" {
        assert [] + NonBlank(chunks[1..]) == NonBlank(chunks[1..]);
      } else {
        assert ([Trim(chunks[0])] + NonBlank(chunks[1..]))[1..] == NonBlank(chunks[1..]);
      }
    }
  }

  predicate Chunked(tok: Counter, bs: seq<Block>, ws: seq<Window>) { Complete(Counts(bs), Recounts(tok, bs), ws) }

  lemma BlocksSized(tok: Counter, text: string)
    ensures AllSized(tok, TextBlocks(tok, text))
  {
    ParagraphsSized(tok, Split(Trim(text), "\n\n"));
  }

  /** A chunk within 576 tokens, or an overlap followed by one long word. */
  predicate Bounded(tok: Counter, bs: seq<Block>, ws: seq<Window>, k: nat)
    requires Chunked(tok, bs, ws) && k < |ws|
  {
    var (w, mid) := (ws[k], PrevEnd(ws, k));
    || Tracked(Counts(bs), Recounts(tok, bs), w.start, mid, w.end) <= 576
    || (w.end == mid + 1 && Word(bs[mid].text))
  }

  lemma ChunkBounded(tok: Counter, bs: seq<Block>, ws: seq<Window>, k: nat)
    requires Chunked(tok, bs, ws) && k < |ws| && AllSized(tok, bs)
    ensures Bounded(tok, bs, ws, k)
  {
    hide Tracked, Greedy;
    WindowBound(Counts(bs), Recounts(tok, bs), ws, k);
    assert bs[PrevEnd(ws, k)] in bs;
  }

  /**
   Chunking is complete and bounded: without their overlaps the chunks hold all of the text's ink in order, and a chunk
   counts at most 576 tokens unless it is an overlap followed by one word that counts over 512.
   */
  lemma ChunksHoldTheText(tok: Counter, text: string, ws: seq<Window>)
    requires Chunked(tok, TextBlocks(tok, text), ws)
    ensures InkOf(Added(Texts(TextBlocks(tok, text)), ws)) == Ink(text)
    ensures forall k | 0 <= k < |ws| :: Bounded(tok, TextBlocks(tok, text), ws, k)
  {
    hide TextBlocks, Tracked, Greedy, Bounded, AllSized, Ink, InkOf;
    var bs := TextBlocks(tok, text);
    BlocksKeepInk(tok, text);
    AddedIsAll(Texts(bs), ws);
    assert Texts(bs)[..|bs|] == Texts(bs);
    BlocksSized(tok, text);
    forall k | 0 <= k < |ws| ensures Bounded(tok, bs, ws, k) {
      ChunkBounded(tok, bs, ws, k);
    }
  }

  // ---------------------------------------------------------------- the loops over text

  /** The word loop. */
  method GatherWords(tok: Counter, words: seq<string>) returns (blocks: seq<Block>)
    ensures blocks == WordBlocks(tok, words, [], 0)
  {
    hide Join;
    blocks := [];
    var current: seq<string> := [];
    var tokens: nat := 0;
    var k := 0;
    assert words[0..] == words;
    while k < |words|
      invariant 0 <= k <= |words| && blocks + WordBlocks(tok, words[k..], current, tokens) == WordBlocks(tok, words, [], 0)
    {
      var word := words[k];
      assert words[k..][0] == word && words[k..][1..] == words[k + 1..];
      if word != "" {
        var w := tok(" " + word);
        if tokens + w > MAX_TOKENS {
          assert blocks + (Flush(current, tokens) + WordBlocks(tok, words[k + 1..], [word], w))
            == blocks + Flush(current, tokens) + WordBlocks(tok, words[k + 1..], [word], w);
          if current != [] {
            blocks := blocks + [Block(Join(current, " "), tokens)];
          } else {
            assert blocks + Flush(current, tokens) == blocks;
          }
          current, tokens := [word], w;
        } else {
          current, tokens := current + [word], tokens + w;
        }
      }
      k := k + 1;
    }
    if current != [] {
      blocks := blocks + [Block(Join(current, " "), tokens)];
    }
  }

  /** One line: dropped when blank, a block when it fits, its words otherwise. */
  method GatherLine(tok: Counter, raw: string) returns (blocks: seq<Block>)
    ensures blocks == LineBlocks(tok, raw)
  {
    hide WordBlocks, Split, Trim;
    var line := Trim(raw);
    if line == "" {
      blocks := [];
    } else if tok(line) <= MAX_TOKENS {
      blocks := [Block(line, tok(line))];
    } else {
      blocks := GatherWords(tok, Split(line, " "));
    }
  }

  /** The line loop of one long paragraph. */
  method GatherLines(tok: Counter, lines: seq<string>) returns (blocks: seq<Block>)
    ensures blocks == LinesBlocks(tok, lines)
  {
    hide LineBlocks;
    blocks := [];
    var k := 0;
    assert lines[0..] == lines;
    while k < |lines|
      invariant 0 <= k <= |lines| && blocks + LinesBlocks(tok, lines[k..]) == LinesBlocks(tok, lines)
    {
      assert lines[k..][0] == lines[k] && lines[k..][1..] == lines[k + 1..];
      var more := GatherLine(tok, lines[k]);
      assert blocks + (more + LinesBlocks(tok, lines[k + 1..])) == blocks + more + LinesBlocks(tok, lines[k + 1..]);
      blocks := blocks + more;
      k := k + 1;
    }
    assert lines[k..] == [];
  }

  /** One paragraph: dropped when blank, a block when it fits, its lines otherwise. */
  method GatherParagraph(tok: Counter, raw: string) returns (blocks: seq<Block>)
    ensures blocks == ParagraphBlocks(tok, raw)
  {
    hide LinesBlocks, Split, Trim;
    var p := Trim(raw);
    if p == "" {
      blocks := [];
    } else if tok(p) <= MAX_TOKENS {
      blocks := [Block(p, tok(p))];
    } else {
      blocks := GatherLines(tok, Split(p, "\n"));
    }
  }

  /** The paragraph loop. */
  method GatherParagraphs(tok: Counter, paragraphs: seq<string>) returns (blocks: seq<Block>)
    ensures blocks == ParagraphsBlocks(tok, paragraphs)
  {
    hide ParagraphBlocks;
    blocks := [];
    var k := 0;
    assert paragraphs[0..] == paragraphs;
    while k < |paragraphs|
      invariant 0 <= k <= |paragraphs|
      invariant blocks + ParagraphsBlocks(tok, paragraphs[k..]) == ParagraphsBlocks(tok, paragraphs)
    {
      assert paragraphs[k..][0] == paragraphs[k] && paragraphs[k..][1..] == paragraphs[k + 1..];
      var more := GatherParagraph(tok, paragraphs[k]);
      assert blocks + (more + ParagraphsBlocks(tok, paragraphs[k + 1..])) == blocks + more + ParagraphsBlocks(tok, paragraphs[k + 1..]);
      blocks := blocks + more;
      k := k + 1;
    }
    assert paragraphs[k..] == [];
  }

  // ---------------------------------------------------------------- the packing loop

  /** The trailing blocks of a finished chunk that fit the overlap, found from the back. */
  method KeepOverlap(tok: Counter, current: seq<string>, ghost u: seq<nat>, ghost low: nat) returns (kept: seq<string>, tokens: nat)
    requires low + |current| <= |u| && forall j | 0 <= j < |current| :: u[low + j] == tok(current[j])
    ensures |kept| <= |current| && kept == current[|current| - |kept|..]
    ensures LongestOverlap(u, low, low + |current|, low + |current| - |kept|)
    ensures tokens == Sum(u, low + |current| - |kept|, low + |current|)
  {
    var j := |current|;
    kept, tokens := [], 0;
    while j > 0
      invariant 0 <= j <= |current| && kept == current[j..]
      invariant tokens == Sum(u, low + j, low + |current|) && tokens <= OVERLAP_TOKENS
    {
      var n := tok(current[j - 1]);
      assert u[low + (j - 1)] == n;
      if tokens + n > OVERLAP_TOKENS {
        return;
      }
      kept, tokens, j := [current[j - 1]] + kept, tokens + n, j - 1;
    }
  }

  /** The packing loop between two blocks: a window from `start`, its own blocks from `mid`, counted so far. */
  ghost predicate Open(t: seq<nat>, u: seq<nat>, ws: seq<Window>, start: nat, mid: nat, i: nat, tokens: nat) {
    && Packing(t, u, ws) && start <= mid <= i <= |t| && mid == PrevEnd(ws, |ws|) && Follows(u, ws, |ws|, start)
    && tokens == Tracked(t, u, start, mid, i) && Fits(t, u, start, mid, i)
    && (start == i ==> Clean(ws, |ws|)) && (start < i ==> mid < i && (Clean(ws, |ws|) ==> t[mid] <= MAX_TOKENS))
  }

  lemma GreedyStays(t: seq<nat>, u: seq<nat>, ws: seq<Window>, w: Window, k: nat)
    requires Shaped(t, u, ws) && Shaped(t, u, ws + [w]) && k < |ws| && Greedy(t, u, ws, k)
    ensures Greedy(t, u, ws + [w], k)
  {
    hide Fits, Tracked, LongestOverlap;
    var more := ws + [w];
    assert more[k] == ws[k] && (k > 0 ==> more[k - 1] == ws[k - 1]);
    assert PrevEnd(more, k) == PrevEnd(ws, k) && Clean(more, k) == Clean(ws, k);
  }

  lemma PackingMore(t: seq<nat>, u: seq<nat>, ws: seq<Window>, w: Window)
    requires Packing(t, u, ws) && Shaped(t, u, ws + [w]) && Greedy(t, u, ws + [w], |ws|)
    ensures Packing(t, u, ws + [w])
  {
    hide Greedy, Shaped;
    forall k | 0 <= k < |ws + [w]| ensures Greedy(t, u, ws + [w], k) {
      if k < |ws| {
        GreedyStays(t, u, ws, w, k);
      }
    }
  }

  lemma OpenAppend(t: seq<nat>, u: seq<nat>, ws: seq<Window>, start: nat, mid: nat, i: nat, tokens: nat)
    requires Open(t, u, ws, start, mid, i, tokens) && i < |t| && tokens + t[i] <= MAX_TOKENS
    ensures Open(t, u, ws, start, mid, i + 1, tokens + t[i])
  {
    hide Greedy;
    SumSplit(t, mid, i, i + 1);
    assert Sum(t, i, i + 1) == t[i];
  }

  lemma CutGreedy(t: seq<nat>, u: seq<nat>, ws: seq<Window>, start: nat, mid: nat, i: nat, tokens: nat)
    requires Open(t, u, ws, start, mid, i, tokens) && start < i && (i < |t| ==> tokens + t[i] > MAX_TOKENS)
    ensures Shaped(t, u, ws + [Window(start, i, false)]) && Greedy(t, u, ws + [Window(start, i, false)], |ws|)
  {
    var w := Window(start, i, false);
    ShapedMore(t, u, ws, w);
    FollowsMore(u, ws, w, start);
    hide Packing, Shaped, LongestOverlap, Follows, Clean, PrevEnd, Fits, Tracked;
  }

  lemma OpenCut(t: seq<nat>, u: seq<nat>, ws: seq<Window>, start: nat, mid: nat, i: nat, tokens: nat)
    requires Open(t, u, ws, start, mid, i, tokens) && start < i && (i < |t| ==> tokens + t[i] > MAX_TOKENS)
    ensures Packing(t, u, ws + [Window(start, i, false)])
  {
    CutGreedy(t, u, ws, start, mid, i, tokens);
    hide Greedy, Shaped, Fits, Follows, Tracked;
    PackingMore(t, u, ws, Window(start, i, false));
  }

  lemma OpenNext(t: seq<nat>, u: seq<nat>, ws: seq<Window>, start: nat, i: nat)
    requires Packing(t, u, ws) && ws != [] && !ws[|ws| - 1].alone && ws[|ws| - 1].end == i && i < |t|
    requires LongestOverlap(u, ws[|ws| - 1].start, i, start)
    ensures Open(t, u, ws, start, i, i + 1, Sum(u, start, i) + t[i])
  {
    hide Greedy;
    assert Sum(t, i, i + 1) == t[i];
  }

  /** A window appended behind the last end keeps the shape and the ends before it. */
  lemma ShapedMore(t: seq<nat>, u: seq<nat>, ws: seq<Window>, w: Window)
    requires Shaped(t, u, ws) && w.start <= PrevEnd(ws, |ws|) < w.end <= |t|
    ensures Shaped(t, u, ws + [w]) && PrevEnd(ws + [w], |ws|) == PrevEnd(ws, |ws|) && Clean(ws + [w], |ws|) == Clean(ws, |ws|)
  {
    var more := ws + [w];
    forall k | 0 <= k < |more| ensures more[k].start <= PrevEnd(more, k) < more[k].end <= |t| {
      SamePrevEnd(ws, w, k);
    }
    SamePrevEnd(ws, w, |ws|);
  }

  lemma SamePrevEnd(ws: seq<Window>, w: Window, k: nat)
    requires k <= |ws|
    ensures PrevEnd(ws + [w], k) == PrevEnd(ws, k) && Clean(ws + [w], k) == Clean(ws, k) && (k < |ws| ==> (ws + [w])[k] == ws[k])
  {
  }

  lemma FollowsMore(u: seq<nat>, ws: seq<Window>, w: Window, start: nat)
    requires (forall j | 0 <= j < |ws| :: ws[j].end <= |u|) && Follows(u, ws, |ws|, start)
    ensures forall j | 0 <= j < |ws| :: (ws + [w])[j].end <= |u|
    ensures Follows(u, ws + [w], |ws|, start)
  {
    hide LongestOverlap;
    assert ws != [] ==> (ws + [w])[|ws| - 1] == ws[|ws| - 1];
  }

  lemma AloneGreedy(t: seq<nat>, u: seq<nat>, ws: seq<Window>, i: nat, tokens: nat)
    requires Open(t, u, ws, i, i, i, tokens) && i < |t| && tokens + t[i] > MAX_TOKENS
    ensures Shaped(t, u, ws + [Window(i, i + 1, true)]) && Greedy(t, u, ws + [Window(i, i + 1, true)], |ws|)
  {
    var w := Window(i, i + 1, true);
    assert Sum(t, i, i + 1) == t[i];
    ShapedMore(t, u, ws, w);
    FollowsMore(u, ws, w, i);
    hide Packing, Shaped, LongestOverlap, Follows, Clean, PrevEnd;
  }

  lemma OpenAlone(t: seq<nat>, u: seq<nat>, ws: seq<Window>, i: nat, tokens: nat)
    requires Open(t, u, ws, i, i, i, tokens) && i < |t| && tokens + t[i] > MAX_TOKENS
    ensures Open(t, u, ws + [Window(i, i + 1, true)], i + 1, i + 1, i + 1, 0)
  {
    AloneGreedy(t, u, ws, i, tokens);
    hide Greedy, Shaped;
    PackingMore(t, u, ws, Window(i, i + 1, true));
  }

  lemma ChunksMore(bs: seq<Block>, ws: seq<Window>, w: Window)
    requires InRange(bs, ws) && w.start <= w.end <= |bs|
    ensures Chunks(bs, ws + [w]) == Chunks(bs, ws) + [Chunk(bs, w)]
  {
    hide Chunk;
  }

  /** The whole state of the packing loop between two blocks. */
  ghost predicate At(tok: Counter, bs: seq<Block>, ws: seq<Window>, chunks: seq<string>, current: seq<string>, tokens: nat, start: nat, mid: nat, i: nat) {
    && Open(Counts(bs), Recounts(tok, bs), ws, start, mid, i, tokens) && start <= i <= |bs|
    && InRange(bs, ws) && chunks == Chunks(bs, ws) && current == Texts(bs)[start..i]
  }

  lemma AtFirst(tok: Counter, bs: seq<Block>)
    ensures At(tok, bs, [], [], [], 0, 0, 0, 0)
  {
  }

  lemma AtAppend(tok: Counter, bs: seq<Block>, ws: seq<Window>, chunks: seq<string>, current: seq<string>, tokens: nat, start: nat, mid: nat, i: nat)
    requires At(tok, bs, ws, chunks, current, tokens, start, mid, i) && i < |bs| && tokens + bs[i].tokens <= MAX_TOKENS
    ensures At(tok, bs, ws, chunks, current + [bs[i].text], tokens + bs[i].tokens, start, mid, i + 1)
  {
    OpenAppend(Counts(bs), Recounts(tok, bs), ws, start, mid, i, tokens);
    hide Open, Chunks, InRange, Recounts;
    TextsNext(bs, start, i);
    hide Texts;
  }

  lemma TextsNext(bs: seq<Block>, start: nat, i: nat)
    requires start <= i < |bs|
    ensures Texts(bs)[start..i + 1] == Texts(bs)[start..i] + [bs[i].text]
  {
  }

  lemma AtAlone(tok: Counter, bs: seq<Block>, ws: seq<Window>, chunks: seq<string>, tokens: nat, start: nat, mid: nat, i: nat)
    requires At(tok, bs, ws, chunks, [], tokens, start, mid, i) && i < |bs| && tokens + bs[i].tokens > MAX_TOKENS
    ensures At(tok, bs, ws + [Window(i, i + 1, true)], chunks + [bs[i].text], [], 0, i + 1, i + 1, i + 1)
  {
    assert |Texts(bs)[start..i]| == 0;
    assert start == i && mid == i;
    OpenAlone(Counts(bs), Recounts(tok, bs), ws, i, tokens);
    hide Open;
    ChunksMore(bs, ws, Window(i, i + 1, true));
    assert Texts(bs)[i..i + 1] == [bs[i].text];
  }

  /** Cutting before block i, or at the end. */
  lemma AtCut(tok: Counter, bs: seq<Block>, ws: seq<Window>, chunks: seq<string>, current: seq<string>, tokens: nat, start: nat, mid: nat, i: nat)
    requires At(tok, bs, ws, chunks, current, tokens, start, mid, i) && current != []
    requires i < |bs| ==> tokens + bs[i].tokens > MAX_TOKENS
    ensures
      var more := ws + [Window(start, i, false)];
      Packing(Counts(bs), Recounts(tok, bs), more) && InRange(bs, more) && chunks + [Join(current, "\n\n")] == Chunks(bs, more)
      && start + |current| == i && (forall j | 0 <= j < |current| :: Recounts(tok, bs)[start + j] == tok(current[j]))
  {
    OpenCut(Counts(bs), Recounts(tok, bs), ws, start, mid, i, tokens);
    hide Open, Packing;
    ChunksMore(bs, ws, Window(start, i, false));
  }

  lemma AtNext(tok: Counter, bs: seq<Block>, ws: seq<Window>, chunks: seq<string>, start: nat, i: nat)
    requires Packing(Counts(bs), Recounts(tok, bs), ws) && InRange(bs, ws) && chunks == Chunks(bs, ws) && i < |bs| && ws != []
    requires !ws[|ws| - 1].alone && ws[|ws| - 1].end == i && LongestOverlap(Recounts(tok, bs), ws[|ws| - 1].start, i, start)
    ensures At(tok, bs, ws, chunks, Texts(bs)[start..i] + [bs[i].text], Sum(Recounts(tok, bs), start, i) + bs[i].tokens, start, i, i + 1)
  {
    assert |Recounts(tok, bs)| == |bs|;
    hide Open, Packing, LongestOverlap, Sum, Chunks, Recounts;
    OpenNext(Counts(bs), Recounts(tok, bs), ws, start, i);
    OverlapStart(Recounts(tok, bs), ws[|ws| - 1].start, i, start);
    TextsNext(bs, start, i);
    hide Texts;
  }

  lemma OverlapStart(u: seq<nat>, low: nat, cut: nat, start: nat)
    requires cut <= |u| && LongestOverlap(u, low, cut, start)
    ensures start <= cut
  {
  }

  /** One cut of the packing loop, with the overlap it keeps. */
  method Cut(tok: Counter, bs: seq<Block>, ghost ws: seq<Window>, chunks: seq<string>, current: seq<string>, ghost tokens: nat, ghost start: nat, ghost mid: nat, i: nat)
      returns (more: seq<string>, rest: seq<string>, sum: nat, ghost next: nat)
    requires At(tok, bs, ws, chunks, current, tokens, start, mid, i) && current != [] && i < |bs| && tokens + bs[i].tokens > MAX_TOKENS
    ensures At(tok, bs, ws + [Window(start, i, false)], more, rest, sum, next, i, i + 1)
  {
    hide Open, Packing, Sum, Follows;
    AtCut(tok, bs, ws, chunks, current, tokens, start, mid, i);
    more := chunks + [Join(current, "\n\n")];
    var kept, keptTokens := KeepOverlap(tok, current, Recounts(tok, bs), start);
    ghost var from := i - |kept|;
    AtNext(tok, bs, ws + [Window(start, i, false)], more, from, i);
    rest, sum, next := kept + [bs[i].text], keptTokens + bs[i].tokens, from;
    assert kept == Texts(bs)[from..i];
  }

  lemma AtEnd(tok: Counter, bs: seq<Block>, ws: seq<Window>, chunks: seq<string>, tokens: nat, start: nat, mid: nat)
    requires At(tok, bs, ws, chunks, [], tokens, start, mid, |bs|)
    ensures Chunked(tok, bs, ws) && InRange(bs, ws) && chunks == Chunks(bs, ws)
  {
    assert |Texts(bs)[start..]| == 0;
  }

  /** These are the texts of the blocks' complete greedy packing. */
  ghost predicate Packed(tok: Counter, bs: seq<Block>, chunks: seq<string>) {
    exists ws :: Chunked(tok, bs, ws) && InRange(bs, ws) && chunks == Chunks(bs, ws)
  }

  /** The packing loop of `chunk_text`. */
  method Pack(tok: Counter, bs: seq<Block>) returns (chunks: seq<string>)
    ensures Packed(tok, bs, chunks)
  {
    ghost var ws;
    chunks, ws := PackWindows(tok, bs);
    hide Chunked, InRange, Chunks;
  }

  method PackWindows(tok: Counter, bs: seq<Block>) returns (chunks: seq<string>, ghost ws: seq<Window>)
    ensures Chunked(tok, bs, ws) && InRange(bs, ws) && chunks == Chunks(bs, ws)
  {
    hide At, Packing, Chunks, Counts, Recounts;
    chunks, ws := [], [];
    var current: seq<string> := [];
    var tokens: nat := 0;
    ghost var start: nat, mid: nat := 0, 0;
    AtFirst(tok, bs);
    var i := 0;
    while i < |bs|
      invariant 0 <= i <= |bs| && At(tok, bs, ws, chunks, current, tokens, start, mid, i)
    {
      if tokens + bs[i].tokens > MAX_TOKENS {
        if current != [] {
          ghost var cut := Window(start, i, false);
          chunks, current, tokens, start := Cut(tok, bs, ws, chunks, current, tokens, start, mid, i);
          ws, mid := ws + [cut], i;
        } else {
          AtAlone(tok, bs, ws, chunks, tokens, start, mid, i);
          chunks, ws, tokens := chunks + [bs[i].text], ws + [Window(i, i + 1, true)], 0;
          start, mid := i + 1, i + 1;
        }
      } else {
        AtAppend(tok, bs, ws, chunks, current, tokens, start, mid, i);
        current, tokens := current + [bs[i].text], tokens + bs[i].tokens;
      }
      i := i + 1;
    }
    if current != [] {
      AtCut(tok, bs, ws, chunks, current, tokens, start, mid, i);
      chunks, ws := chunks + [Join(current, "\n\n")], ws + [Window(start, i, false)];
      LastCut(tok, bs, ws);
    } else {
      AtEnd(tok, bs, ws, chunks, tokens, start, mid);
    }
  }

  lemma LastCut(tok: Counter, bs: seq<Block>, ws: seq<Window>)
    requires Packing(Counts(bs), Recounts(tok, bs), ws) && ws != [] && ws[|ws| - 1].end == |bs|
    ensures Chunked(tok, bs, ws)
  {
  }

  /** What `chunk_text` is specified to return: the packed chunks of the text's blocks, stripped, without the blank ones. */
  ghost predicate ChunksOf(tok: Counter, raw: string, out: seq<string>) {
    exists chunks :: Packed(tok, TextBlocks(tok, raw), chunks) && out == NonBlank(chunks)
  }

  /** A text and a token counter have one list of chunks. */
  lemma ChunksUnique(tok: Counter, raw: string, a: seq<string>, b: seq<string>)
    requires ChunksOf(tok, raw, a) && ChunksOf(tok, raw, b)
    ensures a == b
  {
    hide TextBlocks, Complete, Chunks, NonBlank;
    var bs := TextBlocks(tok, raw);
    var x :| Packed(tok, bs, x) && a == NonBlank(x);
    var y :| Packed(tok, bs, y) && b == NonBlank(y);
    var v :| Chunked(tok, bs, v) && InRange(bs, v) && x == Chunks(bs, v);
    var w :| Chunked(tok, bs, w) && InRange(bs, w) && y == Chunks(bs, w);
    PackingUnique(Counts(bs), Recounts(tok, bs), v, w);
  }

  /** The returned chunks and the windows they come from: trimmed, bounded, and together holding the text. */
  ghost predicate Holds(tok: Counter, raw: string, out: seq<string>, ws: seq<Window>) {
    var bs := TextBlocks(tok, raw);
    && Chunked(tok, bs, ws) && InRange(bs, ws)
    && (forall c | c in out :: exists k :: 0 <= k < |ws| && c == Trim(Chunk(bs, ws[k])))
    && (forall k | 0 <= k < |ws| :: Bounded(tok, bs, ws, k))
    && InkOf(out) == InkOf(Chunks(bs, ws)) && InkOf(Added(Texts(bs), ws)) == Ink(raw)
  }

  lemma {:induction false} NonBlankAreTrimmed(chunks: seq<string>, c: string)
    requires c in NonBlank(chunks)
    ensures exists k :: 0 <= k < |chunks| && c == Trim(chunks[k])
  {
    hide Trim;
    if Trim(chunks[0]) != "" && c == Trim(chunks[0]) {
    } else {
      NonBlankAreTrimmed(chunks[1..], c);
      var k :| 0 <= k < |chunks[1..]| && c == Trim(chunks[1..][k]);
      assert chunks[1..][k] == chunks[k + 1];
    }
  }

  /**
   What the chunks of a text hold: each is a trimmed window within 576 tokens or with one long word, stripping and
   dropping blank ones loses no ink, and without their overlaps the windows hold all of the text's ink in order.
   */
  lemma ChunksHold(tok: Counter, raw: string, out: seq<string>)
    requires ChunksOf(tok, raw, out)
    ensures exists ws :: Holds(tok, raw, out, ws)
  {
    hide TextBlocks, Chunked, Ink, InkOf, Trim, Texts, Chunk;
    var bs := TextBlocks(tok, raw);
    var chunks :| Packed(tok, bs, chunks) && out == NonBlank(chunks);
    var ws :| Chunked(tok, bs, ws) && InRange(bs, ws) && chunks == Chunks(bs, ws);
    NonBlankKeepsInk(chunks);
    WindowsInOrder(tok, bs, ws);
    ChunksHoldTheText(tok, raw, ws);
    forall c | c in out ensures exists k :: 0 <= k < |ws| && c == Trim(Chunk(bs, ws[k])) {
      NonBlankAreTrimmed(chunks, c);
      var k :| 0 <= k < |chunks| && c == Trim(chunks[k]);
    }
    assert Holds(tok, raw, out, ws);
  }

  lemma WindowsInOrder(tok: Counter, bs: seq<Block>, ws: seq<Window>)
    requires Chunked(tok, bs, ws)
    ensures |Texts(bs)| == |bs| && forall k | 0 <= k < |ws| :: PrevEnd(ws, k) <= ws[k].end <= |bs|
  {
    hide Greedy;
  }

  /** `chunk_text` */
  method ChunkText(tok: Counter, raw: string) returns (out: seq<string>)
    ensures ChunksOf(tok, raw, out) && exists ws :: Holds(tok, raw, out, ws)
  {
    hide Trim, Split, ParagraphsBlocks, Packed, Holds;
    var text := Trim(raw);
    var blocks := GatherParagraphs(tok, Split(text, "\n\n"));
    var chunks := Pack(tok, blocks);
    out := [];
    var k := 0;
    assert chunks[0..] == chunks;
    while k < |chunks|
      invariant 0 <= k <= |chunks| && out + NonBlank(chunks[k..]) == NonBlank(chunks)
    {
      assert chunks[k..][0] == chunks[k] && chunks[k..][1..] == chunks[k + 1..];
      var c := Trim(chunks[k]);
      if c != "" {
        assert out + ([c] + NonBlank(chunks[k + 1..])) == out + [c] + NonBlank(chunks[k + 1..]);
        out := out + [c];
      } else {
        assert [] + NonBlank(chunks[k + 1..]) == NonBlank(chunks[k + 1..]);
      }
      k := k + 1;
    }
    assert chunks[k..] == [];
    ChunksHold(tok, raw, out);
  }
}
