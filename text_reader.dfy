/** The student's reader (src/features/reader/TextReader.tsx): the rhetorical-situation
    gate, range selection by mouse or by two taps, the word tokeniser of touch mode,
    the split of the text into plain and highlighted chunks, and saving an annotation. */
module TextReader {
  import opened Js
  import opened Sorting
  import opened Docs

  // ---------------------------------------------------------------------------
  // Touch-mode tokeniser: `text.split(/(\s+)/)` with a running offset.

  /** The longest prefix without a `\s` character. */
  function WordPrefix(s: string): (r: string)
    ensures |r| <= |s| && r == s[..|r|]
    ensures forall i :: 0 <= i < |r| ==> !IsSpace(r[i])
    ensures |r| < |s| ==> IsSpace(s[|r|])
  {
    if s == [] || IsSpace(s[0]) then [] else [s[0]] + WordPrefix(s[1..])
  }

  /** The longest prefix of `\s` characters. */
  function SpacePrefix(s: string): (r: string)
    ensures |r| <= |s| && r == s[..|r|]
    ensures AllSpace(r)
    ensures |r| < |s| ==> !IsSpace(s[|r|])
    ensures s != [] && IsSpace(s[0]) ==> r != []
  {
    if s == [] || !IsSpace(s[0]) then [] else [s[0]] + SpacePrefix(s[1..])
  }

  predicate NoSpace(s: string) {
    forall i :: 0 <= i < |s| ==> !IsSpace(s[i])
  }

  /** `s.split(/(\s+)/)`: the pieces between maximal whitespace runs, with the runs kept
      in between; the first and last pieces may be empty. */
  function SplitKeepSpace(s: string): (parts: seq<string>)
    ensures |parts| >= 1
    decreases |s|
  {
    var w := WordPrefix(s);
    if |w| == |s| then [s]
    else
      var rest := s[|w|..];
      var ws := SpacePrefix(rest);
      [w, ws] + SplitKeepSpace(rest[|ws|..])
  }

  /** A word without whitespace (possibly empty), then alternately a non-empty whitespace
      run and another word; the list therefore has odd length. */
  predicate Alternates(parts: seq<string>) {
    && |parts| >= 1 && NoSpace(parts[0])
    && (|parts| == 1 || (|parts| >= 3 && parts[1] != [] && AllSpace(parts[1]) && Alternates(parts[2..])))
  }

  lemma {:induction false} SplitKeepSpaceShape(s: string)
    ensures Alternates(SplitKeepSpace(s))
    decreases |s|
  {
    if |WordPrefix(s)| < |s| {
      var w := WordPrefix(s);
      var ws := SpacePrefix(s[|w|..]);
      var t := AfterFirstRun(s);
      SplitUnfold(s);
      SplitKeepSpaceShape(t);
      assert ([w, ws] + SplitKeepSpace(t))[2..] == SplitKeepSpace(t);
    }
  }

  lemma ConcatPair(a: string, b: string, rest: seq<string>)
    ensures Concat([a, b] + rest) == a + b + Concat(rest)
  {
    ConcatAppend([a, b], rest);
    assert [a, b][..1] == [a];
    assert [a][..0] == [];
  }

  /** The text after the first word and the whitespace run that follows it. */
  function AfterFirstRun(s: string): (r: string)
    requires |WordPrefix(s)| < |s|
    ensures |r| < |s|
  {
    var rest := s[|WordPrefix(s)|..];
    rest[|SpacePrefix(rest)|..]
  }

  lemma SplitUnfold(s: string)
    requires |WordPrefix(s)| < |s|
    ensures var w := WordPrefix(s); var ws := SpacePrefix(s[|w|..]);
      && SplitKeepSpace(s) == [w, ws] + SplitKeepSpace(AfterFirstRun(s))
      && s == w + ws + AfterFirstRun(s)
  {
    var w := WordPrefix(s);
    var rest := s[|w|..];
    var ws := SpacePrefix(rest);
    PrefixSplit(s, |w|);
    PrefixSplit(rest, |ws|);
  }

  lemma PrefixSplit(s: string, k: nat)
    requires k <= |s|
    ensures s == s[..k] + s[k..]
  {
  }

  /** The pieces put back together give the text. */
  lemma {:induction false} SplitKeepSpaceConcat(s: string)
    ensures Concat(SplitKeepSpace(s)) == s
    decreases |s|
  {
    if |WordPrefix(s)| == |s| {
      assert SplitKeepSpace(s) == [s];
      assert [s][..0] == [];
    } else {
      var w := WordPrefix(s);
      var ws := SpacePrefix(s[|w|..]);
      var t := AfterFirstRun(s);
      SplitUnfold(s);
      SplitKeepSpaceConcat(t);
      ConcatPair(w, ws, SplitKeepSpace(t));
    }
  }

  /** `/\S/.test(part)` marks a clickable word; `pending` marks the word where a two-tap
      selection has started. */
  datatype Token = Token(text: string, start: int, end: int, isWord: bool, pending: bool)

  predicate TokenAt(t: Token, parts: seq<string>, j: nat, base: int, touchStart: Option<int>)
    requires j < |parts|
  {
    var start := base + |Concat(parts[..j])|;
    t == Token(parts[j], start, start + |parts[j]|, HasNonSpace(parts[j]), touchStart == Some(start))
  }

  predicate TokensFor(text: string, base: int, touchStart: Option<int>, tokens: seq<Token>) {
    var parts := SplitKeepSpace(text);
    |tokens| == |parts| && forall j :: 0 <= j < |tokens| ==> TokenAt(tokens[j], parts, j, base, touchStart)
  }

  lemma ConcatSnoc(xs: seq<string>, i: nat)
    requires i < |xs|
    ensures Concat(xs[..i + 1]) == Concat(xs[..i]) + xs[i]
  {
    assert xs[..i + 1][..i] == xs[..i];
  }

  /** `renderInteractiveSegment` in touch mode: one token per piece, offsets counted from `base`. */
  method Tokenize(text: string, base: int, touchStart: Option<int>) returns (tokens: seq<Token>)
    ensures TokensFor(text, base, touchStart, tokens)
  {
    var parts := SplitKeepSpace(text);
    var currentOffset := base;
    tokens := [];
    var i := 0;
    while i < |parts|
      invariant 0 <= i <= |parts| && |tokens| == i
      invariant currentOffset == base + |Concat(parts[..i])|
      invariant forall j :: 0 <= j < i ==> TokenAt(tokens[j], parts, j, base, touchStart)
    {
      var part := parts[i];
      var isWord := exists k :: 0 <= k < |part| && !IsSpace(part[k]);
      var start := currentOffset;
      var end := currentOffset + |part|;
      ConcatSnoc(parts, i);
      currentOffset := currentOffset + |part|;
      tokens := tokens + [Token(part, start, end, isWord, touchStart == Some(start))];
      i := i + 1;
    }
  }

  lemma ConcatSplit(xs: seq<string>, j: nat)
    requires j < |xs|
    ensures Concat(xs) == Concat(xs[..j]) + xs[j] + Concat(xs[j + 1..])
  {
    assert xs == xs[..j + 1] + xs[j + 1..];
    ConcatAppend(xs[..j + 1], xs[j + 1..]);
    ConcatSnoc(xs, j);
  }

  lemma TokensLocated(text: string, base: int, touchStart: Option<int>, tokens: seq<Token>)
    requires TokensFor(text, base, touchStart, tokens)
    ensures forall j :: 0 <= j < |tokens| ==>
      base <= tokens[j].start <= tokens[j].end <= base + |text|
      && text[tokens[j].start - base..tokens[j].end - base] == tokens[j].text
  {
    var parts := SplitKeepSpace(text);
    SplitKeepSpaceConcat(text);
    forall j | 0 <= j < |tokens|
      ensures base <= tokens[j].start <= tokens[j].end <= base + |text|
      ensures text[tokens[j].start - base..tokens[j].end - base] == tokens[j].text
    {
      assert TokenAt(tokens[j], parts, j, base, touchStart);
      ConcatSplit(parts, j);
    }
  }

  lemma TokensAdjacent(text: string, base: int, touchStart: Option<int>, tokens: seq<Token>)
    requires TokensFor(text, base, touchStart, tokens)
    ensures |tokens| >= 1 && tokens[0].start == base && tokens[|tokens| - 1].end == base + |text|
    ensures forall j :: 0 <= j < |tokens| - 1 ==> tokens[j + 1].start == tokens[j].end
  {
    var parts := SplitKeepSpace(text);
    SplitKeepSpaceConcat(text);
    assert parts[..0] == [];
    assert TokenAt(tokens[0], parts, 0, base, touchStart);
    forall j | 0 <= j < |tokens| - 1 ensures tokens[j + 1].start == tokens[j].end {
      assert TokenAt(tokens[j], parts, j, base, touchStart);
      assert TokenAt(tokens[j + 1], parts, j + 1, base, touchStart);
      ConcatSnoc(parts, j);
    }
    var n := |tokens| - 1;
    assert TokenAt(tokens[n], parts, n, base, touchStart);
    ConcatSnoc(parts, n);
    assert parts[..n + 1] == parts;
  }

  /** The tokens tile [base, base + |text|) without gaps, each token's offsets locate its own
      text, and the clickable words are exactly the tokens with a non-space character. */
  lemma TokensTile(text: string, base: int, touchStart: Option<int>, tokens: seq<Token>)
    requires TokensFor(text, base, touchStart, tokens)
    ensures |tokens| >= 1 && tokens[0].start == base && tokens[|tokens| - 1].end == base + |text|
    ensures forall j :: 0 <= j < |tokens| - 1 ==> tokens[j + 1].start == tokens[j].end
    ensures forall j :: 0 <= j < |tokens| ==>
      base <= tokens[j].start <= tokens[j].end <= base + |text|
      && text[tokens[j].start - base..tokens[j].end - base] == tokens[j].text
    ensures forall j :: 0 <= j < |tokens| ==> (tokens[j].isWord <==> !AllSpace(tokens[j].text))
  {
    TokensAdjacent(text, base, touchStart, tokens);
    TokensLocated(text, base, touchStart, tokens);
    var parts := SplitKeepSpace(text);
    forall j | 0 <= j < |tokens| ensures tokens[j].isWord <==> !AllSpace(tokens[j].text) {
      assert TokenAt(tokens[j], parts, j, base, touchStart);
      HasNonSpaceIff(parts[j]);
    }
  }

  /** Outside touch mode a segment is one span; in touch mode it is a list of tokens. */
  datatype Interactive = Span(text: string) | Words(tokens: seq<Token>)

  // ---------------------------------------------------------------------------
  // Chunker: plain gaps, highlights and the tail.

  const TempId := "temp-selection"

  datatype Chunk = Gap(text: string, offset: int) | Mark(id: string, text: string, temp: bool)

  function StartOf(a: Annotation): int { a.startOffset }

  /** The highlighted chunk of an annotation. */
  function MarkOf(text: string, a: Annotation): Chunk {
    Mark(a.id, Slice(text, a.startOffset, a.endOffset), a.id == TempId)
  }

  /** The highlight chunks, in order. */
  function Marks(chunks: seq<Chunk>): seq<Chunk> {
    if chunks == [] then []
    else Marks(chunks[..|chunks| - 1]) + (if chunks[|chunks| - 1].Mark? then [chunks[|chunks| - 1]] else [])
  }

  function ChunkTexts(chunks: seq<Chunk>): (r: seq<string>)
    ensures |r| == |chunks|
  {
    if chunks == [] then [] else ChunkTexts(chunks[..|chunks| - 1]) + [chunks[|chunks| - 1].text]
  }

  /** Spans inside the text, each ending no later than the next one starts. */
  predicate Consecutive(text: string, sorted: seq<Annotation>) {
    && (forall i :: 0 <= i < |sorted| ==> 0 <= sorted[i].startOffset <= sorted[i].endOffset <= |text|)
    && (forall i :: 0 <= i < |sorted| - 1 ==> sorted[i].endOffset <= sorted[i + 1].startOffset)
  }

  predicate GapsLocated(text: string, chunks: seq<Chunk>) {
    forall c :: c in chunks && c.Gap? ==>
      0 <= c.offset && c.offset + |c.text| <= |text| && c.text == text[c.offset..c.offset + |c.text|]
  }

  /** Where the last of the spans ends; 0 before any. */
  function LastEnd(sorted: seq<Annotation>): int {
    if sorted == [] then 0 else sorted[|sorted| - 1].endOffset
  }

  /** What the spans spell out, whether or not they overlap: each span's text, preceded by
      the text from the previous span's end when it starts later. `lastIndex` is the end of
      the previous span, so after a span nested in an earlier one it moves back. */
  function SpansText(text: string, sorted: seq<Annotation>): string
    decreases |sorted|
  {
    if sorted == [] then []
    else
      var init, a := sorted[..|sorted| - 1], sorted[|sorted| - 1];
      SpansText(text, init)
      + (if a.startOffset > LastEnd(init) then Slice(text, LastEnd(init), a.startOffset) else [])
      + Slice(text, a.startOffset, a.endOffset)
  }

  /** The spans' text followed by the text after the last span's end. */
  function RenderedText(text: string, sorted: seq<Annotation>): string {
    SpansText(text, sorted) + (if LastEnd(sorted) < |text| then SliceFrom(text, LastEnd(sorted)) else [])
  }

  /** One highlight per span, in the given order; the chunks spell out `RenderedText`, and
      for spans that do not overlap that is the text, with every plain chunk at its own
      offset. */
  predicate ChunksFor(text: string, sorted: seq<Annotation>, chunks: seq<Chunk>) {
    && |Marks(chunks)| == |sorted|
    && (forall j :: 0 <= j < |sorted| ==> Marks(chunks)[j] == MarkOf(text, sorted[j]))
    && Concat(ChunkTexts(chunks)) == RenderedText(text, sorted)
    && (Consecutive(text, sorted) ==> Concat(ChunkTexts(chunks)) == text && GapsLocated(text, chunks))
  }

  /** A span nested in an earlier one is spelled out twice, and so is the text after it:
      on "abcdefg" the spans [0, 5) and [2, 4) give "abcde" + "cd" + "efg". */
  lemma NestedSpanRepeats(a: Annotation, b: Annotation)
    requires a.startOffset == 0 && a.endOffset == 5 && b.startOffset == 2 && b.endOffset == 4
    ensures RenderedText("abcdefg", [a, b]) == "abcdecdefg"
    ensures |RenderedText("abcdefg", [a, b])| > |"abcdefg"|
  {
    var text := "abcdefg";
    assert [a, b][..1] == [a];
    assert [a][..0] == [];
    assert SpansText(text, [a]) == "abcde";
    assert SpansText(text, [a, b]) == "abcde" + "cd";
    assert SliceFrom(text, 4) == "efg";
  }

  lemma ChunksSnoc(chunks: seq<Chunk>, c: Chunk)
    ensures Marks(chunks + [c]) == Marks(chunks) + (if c.Mark? then [c] else [])
    ensures ChunkTexts(chunks + [c]) == ChunkTexts(chunks) + [c.text]
    ensures Concat(ChunkTexts(chunks + [c])) == Concat(ChunkTexts(chunks)) + c.text
  {
    assert (chunks + [c])[..|chunks|] == chunks;
    var ts := ChunkTexts(chunks + [c]);
    assert ts[..|chunks|] == ChunkTexts(chunks);
  }

  lemma PrefixJoin(text: string, a: int, b: int)
    requires 0 <= a <= b <= |text|
    ensures text[..b] == text[..a] + text[a..b]
  {
  }

  lemma GapsLocatedSnoc(text: string, chunks: seq<Chunk>, c: Chunk)
    requires GapsLocated(text, chunks)
    requires c.Gap? ==> 0 <= c.offset && c.offset + |c.text| <= |text| && c.text == text[c.offset..c.offset + |c.text|]
    ensures GapsLocated(text, chunks + [c])
  {
  }

  lemma GapConcat(text: string, chunks: seq<Chunk>, lastIndex: int, start: int)
    requires 0 <= lastIndex < start <= |text|
    requires Concat(ChunkTexts(chunks)) == text[..lastIndex]
    ensures Concat(ChunkTexts(chunks + [Gap(text[lastIndex..start], lastIndex)])) == text[..start]
  {
    ChunksSnoc(chunks, Gap(text[lastIndex..start], lastIndex));
    PrefixJoin(text, lastIndex, start);
  }

  lemma GapLocated(text: string, chunks: seq<Chunk>, lastIndex: int, start: int)
    requires 0 <= lastIndex < start <= |text|
    requires GapsLocated(text, chunks)
    ensures GapsLocated(text, chunks + [Gap(text[lastIndex..start], lastIndex)])
  {
    GapsLocatedSnoc(text, chunks, Gap(text[lastIndex..start], lastIndex));
  }

  lemma GapStep(text: string, chunks: seq<Chunk>, lastIndex: int, start: int, gap: seq<Chunk>)
    requires 0 <= lastIndex <= start <= |text|
    requires Concat(ChunkTexts(chunks)) == text[..lastIndex] && GapsLocated(text, chunks)
    requires gap == if start > lastIndex then [Gap(Slice(text, lastIndex, start), lastIndex)] else []
    ensures Concat(ChunkTexts(chunks + gap)) == text[..start] && GapsLocated(text, chunks + gap)
  {
    if start > lastIndex {
      assert gap == [Gap(text[lastIndex..start], lastIndex)];
      GapConcat(text, chunks, lastIndex, start);
      GapLocated(text, chunks, lastIndex, start);
    } else {
      assert chunks + gap == chunks;
    }
  }

  /** A span's highlight extends the chunks from its start to its end. */
  lemma MarkStep(text: string, chunks: seq<Chunk>, ann: Annotation, mark: Chunk)
    requires 0 <= ann.startOffset <= ann.endOffset <= |text|
    requires Concat(ChunkTexts(chunks)) == text[..ann.startOffset] && GapsLocated(text, chunks)
    requires mark == MarkOf(text, ann)
    ensures Concat(ChunkTexts(chunks + [mark])) == text[..ann.endOffset] && GapsLocated(text, chunks + [mark])
  {
    ChunksSnoc(chunks, mark);
    GapsLocatedSnoc(text, chunks, mark);
    PrefixJoin(text, ann.startOffset, ann.endOffset);
  }

  /** One step of the `forEach`: the optional gap before the span, then its highlight. */
  lemma ChunkStep(text: string, chunks: seq<Chunk>, lastIndex: int, ann: Annotation, gap: seq<Chunk>, mark: Chunk)
    requires 0 <= lastIndex <= ann.startOffset <= ann.endOffset <= |text|
    requires Concat(ChunkTexts(chunks)) == text[..lastIndex] && GapsLocated(text, chunks)
    requires gap == if ann.startOffset > lastIndex then [Gap(Slice(text, lastIndex, ann.startOffset), lastIndex)] else []
    requires mark == MarkOf(text, ann)
    ensures Concat(ChunkTexts(chunks + gap + [mark])) == text[..ann.endOffset]
    ensures GapsLocated(text, chunks + gap + [mark])
  {
    GapStep(text, chunks, lastIndex, ann.startOffset, gap);
    MarkStep(text, chunks + gap, ann, mark);
  }

  lemma MarksStep(chunks: seq<Chunk>, gap: seq<Chunk>, mark: Chunk)
    requires |gap| <= 1 && (gap != [] ==> gap[0].Gap?) && mark.Mark?
    ensures Marks(chunks + gap + [mark]) == Marks(chunks) + [mark]
  {
    if gap != [] {
      ChunksSnoc(chunks, gap[0]);
    } else {
      assert chunks + gap == chunks;
    }
    ChunksSnoc(chunks + gap, mark);
  }

  /** The span at i lies in the text and after the end of the span before it. */
  lemma ConsecutiveAt(text: string, sorted: seq<Annotation>, i: nat)
    requires Consecutive(text, sorted) && i < |sorted|
    ensures 0 <= sorted[i].startOffset <= sorted[i].endOffset <= |text|
    ensures i > 0 ==> 0 <= sorted[i - 1].endOffset <= sorted[i].startOffset
  {
  }

  /** What the loop keeps after i spans: their highlights in order, and for spans that do
      not overlap, the chunks spell out the text up to `lastIndex`. */
  predicate Built(text: string, sorted: seq<Annotation>, i: nat, chunks: seq<Chunk>, lastIndex: int) {
    && i <= |sorted|
    && lastIndex == (if i == 0 then 0 else sorted[i - 1].endOffset)
    && MarksBuilt(text, sorted, i, chunks)
    && TextBuilt(text, sorted, i, chunks, lastIndex)
  }

  /** The highlights of the first i spans, in order. */
  predicate MarksBuilt(text: string, sorted: seq<Annotation>, i: nat, chunks: seq<Chunk>)
    requires i <= |sorted|
  {
    |Marks(chunks)| == i && forall j :: 0 <= j < i ==> Marks(chunks)[j] == MarkOf(text, sorted[j])
  }

  /** The chunks spell out the first i spans, and for spans that do not overlap the text up
      to `lastIndex`. */
  predicate TextBuilt(text: string, sorted: seq<Annotation>, i: nat, chunks: seq<Chunk>, lastIndex: int)
    requires i <= |sorted|
  {
    && Concat(ChunkTexts(chunks)) == SpansText(text, sorted[..i])
    && (Consecutive(text, sorted) ==>
         0 <= lastIndex <= |text| && Concat(ChunkTexts(chunks)) == text[..lastIndex] && GapsLocated(text, chunks))
  }

  /** One span step appends what `SpansText` adds for that span. */
  lemma SpansTextStep(text: string, sorted: seq<Annotation>, i: nat, chunks: seq<Chunk>, lastIndex: int, gap: seq<Chunk>)
    requires i < |sorted| && lastIndex == (if i == 0 then 0 else sorted[i - 1].endOffset)
    requires Concat(ChunkTexts(chunks)) == SpansText(text, sorted[..i])
    requires gap == if sorted[i].startOffset > lastIndex then [Gap(Slice(text, lastIndex, sorted[i].startOffset), lastIndex)] else []
    ensures Concat(ChunkTexts(chunks + gap + [MarkOf(text, sorted[i])])) == SpansText(text, sorted[..i + 1])
  {
    var a := sorted[i];
    var mark := MarkOf(text, a);
    var g: string := if a.startOffset > lastIndex then Slice(text, lastIndex, a.startOffset) else [];
    SpansTextSnoc(text, sorted, i, lastIndex);
    assert SpansText(text, sorted[..i + 1]) == SpansText(text, sorted[..i]) + g + mark.text;
    GapText(chunks, gap, g);
    ChunksSnoc(chunks + gap, mark);
  }

  /** `SpansText` of one more span, unfolded once. */
  lemma SpansTextSnoc(text: string, sorted: seq<Annotation>, i: nat, lastIndex: int)
    requires i < |sorted| && lastIndex == (if i == 0 then 0 else sorted[i - 1].endOffset)
    ensures SpansText(text, sorted[..i + 1])
         == SpansText(text, sorted[..i])
            + (if sorted[i].startOffset > lastIndex then Slice(text, lastIndex, sorted[i].startOffset) else [])
            + Slice(text, sorted[i].startOffset, sorted[i].endOffset)
  {
    var pre := sorted[..i + 1];
    assert pre[..|pre| - 1] == sorted[..i];
    assert pre[|pre| - 1] == sorted[i];
    assert LastEnd(sorted[..i]) == lastIndex;
  }

  /** An optional gap chunk adds its text, or nothing. */
  lemma GapText(chunks: seq<Chunk>, gap: seq<Chunk>, g: string)
    requires |gap| <= 1 && (gap == [] ==> g == []) && (gap != [] ==> gap[0].text == g)
    ensures Concat(ChunkTexts(chunks + gap)) == Concat(ChunkTexts(chunks)) + g
  {
    if gap != [] {
      assert chunks + gap == chunks + [gap[0]];
      ChunksSnoc(chunks, gap[0]);
    } else {
      assert chunks + gap == chunks;
    }
  }

  lemma BuiltStep(text: string, sorted: seq<Annotation>, i: nat, chunks: seq<Chunk>, lastIndex: int, gap: seq<Chunk>)
    requires Built(text, sorted, i, chunks, lastIndex) && i < |sorted|
    requires gap == if sorted[i].startOffset > lastIndex then [Gap(Slice(text, lastIndex, sorted[i].startOffset), lastIndex)] else []
    ensures Built(text, sorted, i + 1, chunks + gap + [MarkOf(text, sorted[i])], sorted[i].endOffset)
  {
    MarksBuiltStep(text, sorted, i, chunks, lastIndex, gap);
    TextBuiltStep(text, sorted, i, chunks, lastIndex, gap);
  }

  lemma MarksBuiltStep(text: string, sorted: seq<Annotation>, i: nat, chunks: seq<Chunk>, lastIndex: int, gap: seq<Chunk>)
    requires i < |sorted| && MarksBuilt(text, sorted, i, chunks)
    requires gap == if sorted[i].startOffset > lastIndex then [Gap(Slice(text, lastIndex, sorted[i].startOffset), lastIndex)] else []
    ensures MarksBuilt(text, sorted, i + 1, chunks + gap + [MarkOf(text, sorted[i])])
  {
    MarksStep(chunks, gap, MarkOf(text, sorted[i]));
  }

  lemma TextBuiltStep(text: string, sorted: seq<Annotation>, i: nat, chunks: seq<Chunk>, lastIndex: int, gap: seq<Chunk>)
    requires i < |sorted| && lastIndex == (if i == 0 then 0 else sorted[i - 1].endOffset)
    requires TextBuilt(text, sorted, i, chunks, lastIndex)
    requires gap == if sorted[i].startOffset > lastIndex then [Gap(Slice(text, lastIndex, sorted[i].startOffset), lastIndex)] else []
    ensures TextBuilt(text, sorted, i + 1, chunks + gap + [MarkOf(text, sorted[i])], sorted[i].endOffset)
  {
    SpansTextStep(text, sorted, i, chunks, lastIndex, gap);
    if Consecutive(text, sorted) {
      ConsecutiveAt(text, sorted, i);
      ChunkStep(text, chunks, lastIndex, sorted[i], gap, MarkOf(text, sorted[i]));
    }
  }

  /** The `forEach` over the sorted spans with its mutable `lastIndex`. */
  method ChunkSpans(text: string, sorted: seq<Annotation>) returns (chunks: seq<Chunk>, lastIndex: int)
    ensures Built(text, sorted, |sorted|, chunks, lastIndex)
  {
    chunks := [];
    lastIndex := 0;
    var i := 0;
    while i < |sorted|
      invariant Built(text, sorted, i, chunks, lastIndex)
    {
      var ann := sorted[i];
      var gap: seq<Chunk> := [];
      if ann.startOffset > lastIndex {
        gap := [Gap(Slice(text, lastIndex, ann.startOffset), lastIndex)];
      }
      BuiltStep(text, sorted, i, chunks, lastIndex, gap);
      chunks := chunks + gap + [MarkOf(text, ann)];
      lastIndex := ann.endOffset;
      i := i + 1;
    }
  }

  /** The spans, then the text after the last one. */
  method BuildChunks(text: string, sorted: seq<Annotation>) returns (chunks: seq<Chunk>)
    ensures ChunksFor(text, sorted, chunks)
  {
    var lastIndex;
    chunks, lastIndex := ChunkSpans(text, sorted);
    assert sorted[..|sorted|] == sorted;
    var tail: seq<Chunk> := [];
    if lastIndex < |text| {
      tail := [Gap(SliceFrom(text, lastIndex), lastIndex)];
    }
    TailStep(text, sorted, chunks, lastIndex, tail);
    chunks := chunks + tail;
  }

  /** The text after the last span, when there is any, closes the chunk list. */
  lemma TailStep(text: string, sorted: seq<Annotation>, chunks: seq<Chunk>, lastIndex: int, tail: seq<Chunk>)
    requires |Marks(chunks)| == |sorted|
    requires forall j :: 0 <= j < |sorted| ==> Marks(chunks)[j] == MarkOf(text, sorted[j])
    requires Consecutive(text, sorted) ==>
      0 <= lastIndex <= |text| && Concat(ChunkTexts(chunks)) == text[..lastIndex] && GapsLocated(text, chunks)
    requires lastIndex == LastEnd(sorted) && Concat(ChunkTexts(chunks)) == SpansText(text, sorted)
    requires tail == if lastIndex < |text| then [Gap(SliceFrom(text, lastIndex), lastIndex)] else []
    ensures ChunksFor(text, sorted, chunks + tail)
  {
    TailText(text, chunks, lastIndex, tail);
    if Consecutive(text, sorted) {
      TailCompletes(text, chunks, lastIndex, tail);
    }
  }

  /** The tail adds no highlight and spells out the text after `lastIndex`. */
  lemma TailText(text: string, chunks: seq<Chunk>, lastIndex: int, tail: seq<Chunk>)
    requires tail == if lastIndex < |text| then [Gap(SliceFrom(text, lastIndex), lastIndex)] else []
    ensures Marks(chunks + tail) == Marks(chunks)
    ensures Concat(ChunkTexts(chunks + tail))
         == Concat(ChunkTexts(chunks)) + (if lastIndex < |text| then SliceFrom(text, lastIndex) else [])
  {
    if tail != [] {
      ChunksSnoc(chunks, tail[0]);
    } else {
      assert chunks + tail == chunks;
    }
  }

  /** The text from `lastIndex` on sits at `lastIndex` and completes the prefix. */
  lemma RestOfText(text: string, lastIndex: int)
    requires 0 <= lastIndex <= |text|
    ensures var rest := SliceFrom(text, lastIndex);
      lastIndex + |rest| == |text| && rest == text[lastIndex..lastIndex + |rest|] && text[..lastIndex] + rest == text
  {
    PrefixJoin(text, lastIndex, |text|);
    assert text[..|text|] == text;
  }

  /** For spans that do not overlap, the tail completes the text. */
  lemma TailCompletes(text: string, chunks: seq<Chunk>, lastIndex: int, tail: seq<Chunk>)
    requires 0 <= lastIndex <= |text| && Concat(ChunkTexts(chunks)) == text[..lastIndex] && GapsLocated(text, chunks)
    requires tail == if lastIndex < |text| then [Gap(SliceFrom(text, lastIndex), lastIndex)] else []
    ensures Concat(ChunkTexts(chunks + tail)) == text && GapsLocated(text, chunks + tail)
  {
    if lastIndex < |text| {
      TailGapCompletes(text, chunks, lastIndex);
    } else {
      assert chunks + tail == chunks;
      assert text[..lastIndex] == text;
    }
  }

  lemma TailGapCompletes(text: string, chunks: seq<Chunk>, lastIndex: int)
    requires 0 <= lastIndex < |text| && Concat(ChunkTexts(chunks)) == text[..lastIndex] && GapsLocated(text, chunks)
    ensures var g := Gap(SliceFrom(text, lastIndex), lastIndex);
      Concat(ChunkTexts(chunks + [g])) == text && GapsLocated(text, chunks + [g])
  {
    var g := Gap(SliceFrom(text, lastIndex), lastIndex);
    ChunksSnoc(chunks, g);
    RestOfText(text, lastIndex);
    GapsLocatedSnoc(text, chunks, g);
  }

  // ---------------------------------------------------------------------------
  // The rhetorical-situation record of this page.

  datatype Spacecat = Spacecat(speaker: string, purpose: string, audience: string, context: string, exigence: string)

  datatype SpacecatField = Speaker | Purpose | Audience | Context | Exigence

  function Get(sc: Spacecat, f: SpacecatField): string {
    match f
    case Speaker => sc.speaker
    case Purpose => sc.purpose
    case Audience => sc.audience
    case Context => sc.context
    case Exigence => sc.exigence
  }

  /** `setSpacecatData(prev => ({ ...prev, [name]: value }))` */
  function Set(sc: Spacecat, f: SpacecatField, value: string): (r: Spacecat)
    ensures Get(r, f) == value
    ensures forall g :: g != f ==> Get(r, g) == Get(sc, g)
  {
    match f
    case Speaker => sc.(speaker := value)
    case Purpose => sc.(purpose := value)
    case Audience => sc.(audience := value)
    case Context => sc.(context := value)
    case Exigence => sc.(exigence := value)
  }

  /** The minimum lengths the gate asks for. */
  predicate Detailed(sc: Spacecat) {
    |sc.speaker| >= 3 && |sc.purpose| >= 5 && |sc.audience| >= 3 && |sc.context| >= 10 && |sc.exigence| >= 10
  }

  function SpacecatFields(sc: Spacecat): map<string, string> {
    map["speaker" := sc.speaker, "purpose" := sc.purpose, "audience" := sc.audience,
        "context" := sc.context, "exigence" := sc.exigence]
  }

  const DetailError := "Please provide more detail."

  // ---------------------------------------------------------------------------
  // Sidebar state and its transitions.

  datatype Phase = ScavengerPhase | AnnotationPhase
  datatype SidebarMode = ListMode | CreateMode
  datatype CreateStep = VerbStep | CommentaryStep
  datatype Selection = Selection(text: string, start: int, end: int)

  /** What the browser reports on mouse-up: nothing selected (or a collapsed selection), a
      range outside the text, or a range at an absolute offset with its text and its top. */
  datatype MouseSelection = NoRange | Outside | Range(start: int, text: string, top: int)

  datatype Ui = Ui(
    selection: Option<Selection>, mode: SidebarMode, step: CreateStep, verb: Option<string>,
    commentary: string, editingId: Option<string>, touchStart: Option<int>, spacer: int)

  const InitialUi := Ui(None, ListMode, VerbStep, None, "", None, None, 0)

  /** `alignSidebar`: the spacer that lines the sidebar up with a target's top edge. */
  function Align(targetTop: int, sidebarTop: int): (r: int)
    ensures r >= 0 && r >= targetTop - sidebarTop - 24
    ensures r == 0 || r == targetTop - sidebarTop - 24
  {
    if targetTop - sidebarTop - 24 > 0 then targetTop - sidebarTop - 24 else 0
  }

  /** Entering create mode on a fresh range: verb step, no verb, empty commentary, not editing. */
  function StartCreate(u: Ui, sel: Selection): (r: Ui)
    ensures r.selection == Some(sel) && r.mode == CreateMode && r.step == VerbStep
    ensures r.verb.None? && r.commentary == "" && r.editingId.None?
    ensures r.touchStart == u.touchStart && r.spacer == u.spacer
  {
    u.(selection := Some(sel), mode := CreateMode, step := VerbStep, verb := None, commentary := "", editingId := None)
  }

  /** `handleMouseUp` */
  function MouseUp(u: Ui, phase: Phase, readOnly: bool, touchMode: bool, m: MouseSelection, sidebarTop: int): (r: Ui)
    ensures phase == ScavengerPhase || readOnly || touchMode ==> r == u
    ensures phase == AnnotationPhase && !readOnly && !touchMode && m.NoRange? ==>
      r == if u.mode == ListMode then u.(selection := None) else u
    ensures m.Outside? ==> r == u
    ensures phase == AnnotationPhase && !readOnly && !touchMode && m.Range? ==>
      r == StartCreate(u, Selection(m.text, m.start, m.start + |m.text|)).(spacer := Align(m.top, sidebarTop))
  {
    if phase == ScavengerPhase || readOnly || touchMode then u
    else match m
      case NoRange => if u.mode == ListMode then u.(selection := None) else u
      case Outside => u
      case Range(start, text, top) =>
        StartCreate(u, Selection(text, start, start + |text|)).(spacer := Align(top, sidebarTop))
  }

  /** `handleWordClick`: the two-tap range selection of touch mode. */
  function WordClick(u: Ui, readOnly: bool, content: string, start: int, end: int): (r: Ui)
    ensures readOnly ==> r == u
    ensures !readOnly && (u.touchStart.None? || start < u.touchStart.value) ==> r == u.(touchStart := Some(start))
    ensures !readOnly && u.touchStart.Some? && start >= u.touchStart.value ==>
      var p := u.touchStart.value;
      r == StartCreate(u, Selection(Substring(content, p, end), p, end)).(touchStart := None)
  {
    if readOnly then u
    else if u.touchStart.None? then u.(touchStart := Some(start))
    else if start < u.touchStart.value then u.(touchStart := Some(start))
    else
      var p := u.touchStart.value;
      StartCreate(u, Selection(Substring(content, p, end), p, end)).(touchStart := None)
  }

  /** Two taps, the second on a word starting at or after the first, select from the first
      word's start to the second word's end, with exactly that stretch of the text. */
  lemma TwoTapsSelect(u: Ui, content: string, s1: int, e1: int, s2: int, e2: int)
    requires u.touchStart.None? && s1 <= s2
    ensures var r := WordClick(WordClick(u, false, content, s1, e1), false, content, s2, e2);
      && r.selection == Some(Selection(Substring(content, s1, e2), s1, e2))
      && r.mode == CreateMode && r.step == VerbStep && r.touchStart.None?
      && (0 <= s1 <= e2 <= |content| ==> r.selection.value.text == content[s1..e2])
  {
  }

  /** A second tap before the pending start only moves the pending start. */
  lemma BackwardTapRestarts(u: Ui, content: string, s1: int, e1: int, s2: int, e2: int)
    requires u.touchStart.None? && s2 < s1
    ensures WordClick(WordClick(u, false, content, s1, e1), false, content, s2, e2) == u.(touchStart := Some(s2))
  {
  }

  /** `handleEditAnnotation` */
  function EditAnnotation(u: Ui, ann: Annotation, topOffset: Option<int>, sidebarTop: int): (r: Ui)
    ensures r.selection == Some(Selection(ann.text, ann.startOffset, ann.endOffset))
    ensures r.verb == Some(ann.verb) && r.editingId == Some(ann.id)
    ensures r.commentary == if ann.commentary.Some? then ann.commentary.value else ""
    ensures r.mode == CreateMode && r.step == CommentaryStep && r.touchStart == u.touchStart
    ensures r.spacer == if topOffset.Some? then Align(topOffset.value, sidebarTop) else 0
  {
    u.(selection := Some(Selection(ann.text, ann.startOffset, ann.endOffset)),
       verb := Some(ann.verb),
       commentary := if ann.commentary.Some? then ann.commentary.value else "",
       editingId := Some(ann.id), mode := CreateMode, step := CommentaryStep,
       spacer := if topOffset.Some? then Align(topOffset.value, sidebarTop) else 0)
  }

  /** `handleCancelAnnotation`: selection, mode, editing id, pending tap and spacer are reset;
      the verb, the commentary and the step are kept. */
  function Cancel(u: Ui): (r: Ui)
    ensures r.selection.None? && r.mode == ListMode && r.editingId.None? && r.touchStart.None? && r.spacer == 0
    ensures r.verb == u.verb && r.commentary == u.commentary && r.step == u.step
  {
    u.(selection := None, mode := ListMode, editingId := None, touchStart := None, spacer := 0)
  }

  lemma CancelIdempotent(u: Ui)
    ensures Cancel(Cancel(u)) == Cancel(u)
  {
  }

  /** The save button is enabled only for a commentary with a non-space character. */
  predicate SaveButtonEnabled(u: Ui) {
    Trim(u.commentary) != ""
  }

  // ---------------------------------------------------------------------------
  // The page.

  class Reader {
    const content: string
    const readOnly: bool
    const uid: Option<string>
    const assignmentId: string
    var touchMode: bool
    var phase: Phase
    var spacecat: Spacecat
    var validationError: Option<string>
    var isValidating: bool
    /** The live list of this student's annotations for the assignment. */
    var annotations: seq<Annotation>
    /** The `annotations` collection. */
    var store: map<string, Annotation>
    /** The `submissions` collection. */
    var submissions: map<string, Doc>
    var ui: Ui

    constructor (content: string, readOnly: bool, uid: Option<string>, assignmentId: string,
                 annotations: seq<Annotation>, store: map<string, Annotation>, submissions: map<string, Doc>)
      ensures this.content == content && this.readOnly == readOnly && this.uid == uid
      ensures this.assignmentId == assignmentId && this.annotations == annotations
      ensures this.store == store && this.submissions == submissions
      ensures phase == ScavengerPhase && ui == InitialUi && !touchMode
      ensures spacecat == Spacecat("", "", "", "", "") && validationError.None? && !isValidating
    {
      this.content := content;
      this.readOnly := readOnly;
      this.uid := uid;
      this.assignmentId := assignmentId;
      this.annotations := annotations;
      this.store := store;
      this.submissions := submissions;
      touchMode := false;
      phase := ScavengerPhase;
      spacecat := Spacecat("", "", "", "", "");
      validationError := None;
      isValidating := false;
      ui := InitialUi;
    }

    method ToggleTouchMode()
      modifies this`touchMode
      ensures touchMode == !old(touchMode)
    {
      touchMode := !touchMode;
    }

    method HandleMouseUp(m: MouseSelection, sidebarTop: int)
      modifies this`ui
      ensures ui == MouseUp(old(ui), phase, readOnly, touchMode, m, sidebarTop)
    {
      if phase == ScavengerPhase || readOnly || touchMode {
        return;
      }
      match m {
        case NoRange =>
          if ui.mode == ListMode {
            ui := ui.(selection := None);
          }
        case Outside =>
        case Range(start, text, top) =>
          var end := start + |text|;
          ui := ui.(spacer := Align(top, sidebarTop));
          ui := ui.(selection := Some(Selection(text, start, end)));
          ui := ui.(mode := CreateMode, step := VerbStep, verb := None, commentary := "", editingId := None);
      }
    }

    method HandleWordClick(start: int, end: int)
      modifies this`ui
      ensures ui == WordClick(old(ui), readOnly, content, start, end)
    {
      if readOnly {
        return;
      }
      if ui.touchStart.None? {
        ui := ui.(touchStart := Some(start));
        return;
      }
      var finalStart := ui.touchStart.value;
      var finalEnd := end;
      if start < ui.touchStart.value {
        ui := ui.(touchStart := Some(start));
        return;
      }
      var selectedText := Substring(content, finalStart, finalEnd);
      ui := ui.(selection := Some(Selection(selectedText, finalStart, finalEnd)));
      ui := ui.(mode := CreateMode, step := VerbStep, verb := None, commentary := "", editingId := None);
      ui := ui.(touchStart := None);
    }

    /** `handleVerbSelect` */
    method HandleVerbSelect(verb: string)
      modifies this`ui
      ensures ui == old(ui).(verb := Some(verb), step := CommentaryStep)
    {
      ui := ui.(verb := Some(verb));
      ui := ui.(step := CommentaryStep);
    }

    method HandleEditAnnotation(ann: Annotation, topOffset: Option<int>, sidebarTop: int)
      modifies this`ui
      ensures ui == EditAnnotation(old(ui), ann, topOffset, sidebarTop)
    {
      ui := ui.(selection := Some(Selection(ann.text, ann.startOffset, ann.endOffset)));
      ui := ui.(verb := Some(ann.verb));
      ui := ui.(commentary := if ann.commentary.Some? then ann.commentary.value else "");
      ui := ui.(editingId := Some(ann.id), mode := CreateMode, step := CommentaryStep);
      if topOffset.Some? {
        ui := ui.(spacer := Align(topOffset.value, sidebarTop));
      } else {
        ui := ui.(spacer := 0);
      }
    }

    /** A click on a highlight opens it for editing, except the in-progress selection and
        in read-only mode. */
    method ClickHighlight(ann: Annotation, top: int, sidebarTop: int)
      modifies this`ui
      ensures ui == if ann.id != TempId && !readOnly then EditAnnotation(old(ui), ann, Some(top), sidebarTop) else old(ui)
    {
      if ann.id != TempId && !readOnly {
        HandleEditAnnotation(ann, Some(top), sidebarTop);
      }
    }

    method HandleCancelAnnotation()
      modifies this`ui
      ensures ui == Cancel(old(ui))
    {
      ui := ui.(selection := None, mode := ListMode, editingId := None);
      ui := ui.(touchStart := None, spacer := 0);
    }

    predicate CanSave()
      reads this
    {
      !readOnly && ui.selection.Some? && Filled(ui.verb) && uid.Some? && assignmentId != ""
    }

    /** The new annotation document `addDoc` writes for the current selection. */
    function NewAnnotation(newId: string): (a: Annotation)
      reads this
      requires CanSave()
      ensures a.id == newId && a.text == ui.selection.value.text
      ensures a.startOffset == ui.selection.value.start && a.endOffset == ui.selection.value.end
      ensures a.verb == ui.verb.value && a.commentary == Some(ui.commentary)
      ensures a.color == "#fef3c7" && a.userId == uid.value && a.assignmentId == assignmentId
    {
      var sel := ui.selection.value;
      Annotation(newId, sel.text, ui.verb.value, Some(ui.commentary), sel.start, sel.end, "#fef3c7", uid.value, assignmentId)
    }

    /** `handleSaveAnnotation`. `newId` is the id `addDoc` assigns and `storeFails` says whether
        the store call throws; after a failed call the sidebar is not reset. */
    method HandleSaveAnnotation(newId: string, storeFails: bool)
      requires newId !in store
      modifies this`ui, this`store
      ensures !old(CanSave()) ==> ui == old(ui) && store == old(store)
      ensures old(CanSave()) && Filled(old(ui.editingId)) ==>
        var eid := old(ui.editingId.value);
        if storeFails || eid !in old(store) then ui == old(ui) && store == old(store)
        else ui == Cancel(old(ui))
             && store == old(store)[eid := old(store)[eid].(verb := old(ui.verb.value), commentary := Some(old(ui.commentary)))]
      ensures old(CanSave()) && !Filled(old(ui.editingId)) ==>
        if storeFails then ui == old(ui) && store == old(store)
        else ui == Cancel(old(ui)) && store == old(store)[newId := old(NewAnnotation(newId))]
    {
      if readOnly {
        return;
      }
      if ui.selection.None? || !Filled(ui.verb) || uid.None? || assignmentId == "" {
        return;
      }
      if Filled(ui.editingId) {
        var eid := ui.editingId.value;
        if storeFails || eid !in store {
          return;
        }
        store := store[eid := store[eid].(verb := ui.verb.value, commentary := Some(ui.commentary))];
      } else {
        if storeFails {
          return;
        }
        store := store[newId := NewAnnotation(newId)];
      }
      HandleCancelAnnotation();
    }

    method HandleSpacecatChange(field: SpacecatField, value: string)
      modifies this`spacecat, this`validationError
      ensures readOnly ==> spacecat == old(spacecat) && validationError == old(validationError)
      ensures !readOnly ==> spacecat == Set(old(spacecat), field, value) && validationError.None?
    {
      if readOnly {
        return;
      }
      spacecat := Set(spacecat, field, value);
      validationError := None;
    }

    /** The submission fields the gate writes on success. */
    function SpacecatUpdate(now: int): Doc
      reads this
      requires uid.Some?
    {
      map["userId" := Str(uid.value), "assignmentId" := Str(assignmentId),
          "spacecat" := Fields(SpacecatFields(spacecat)), "status" := Str("started"), "updatedAt" := Time(now)]
    }

    /** `validateSpacecat`: read-only goes straight to annotating; otherwise the five answers
        must be long enough, and a passing record is merged into the submission. A failing
        store call (or a missing user) still moves on to annotating. */
    method ValidateSpacecat(now: int, storeFails: bool)
      modifies this`phase, this`validationError, this`submissions, this`isValidating
      ensures readOnly ==> phase == AnnotationPhase && submissions == old(submissions) && validationError == old(validationError)
      ensures !readOnly && !Detailed(spacecat) ==>
        phase == old(phase) && validationError == Some(DetailError) && submissions == old(submissions)
      ensures !readOnly && Detailed(spacecat) ==> phase == AnnotationPhase && validationError.None?
      ensures !readOnly && Detailed(spacecat) && uid.Some? && !storeFails ==>
        submissions == MergeInto(old(submissions), SubmissionId(uid.value, assignmentId), SpacecatUpdate(now))
      ensures !readOnly && Detailed(spacecat) && (uid.None? || storeFails) ==> submissions == old(submissions)
      ensures !isValidating || old(isValidating)
    {
      if readOnly {
        phase := AnnotationPhase;
        return;
      }
      isValidating := true;
      validationError := None;
      if |spacecat.speaker| < 3 || |spacecat.purpose| < 5 || |spacecat.audience| < 3
         || |spacecat.context| < 10 || |spacecat.exigence| < 10 {
        validationError := Some(DetailError);
        isValidating := false;
        return;
      }
      if uid.Some? && !storeFails {
        submissions := MergeInto(submissions, SubmissionId(uid.value, assignmentId), SpacecatUpdate(now));
      }
      phase := AnnotationPhase;
      isValidating := false;
    }

    /** The spans drawn: the stored annotations, plus the in-progress selection while a new
        annotation is being created. */
    function AllHighlights(): (r: seq<Annotation>)
      reads this
      ensures |r| == |annotations| || |r| == |annotations| + 1
      ensures r[..|annotations|] == annotations
      ensures |r| == |annotations| + 1 <==> ui.selection.Some? && ui.mode == CreateMode && !Filled(ui.editingId)
      ensures |r| == |annotations| + 1 ==>
        r[|annotations|].id == TempId && r[|annotations|].startOffset == ui.selection.value.start
        && r[|annotations|].endOffset == ui.selection.value.end
    {
      if ui.selection.Some? && ui.mode == CreateMode && !Filled(ui.editingId) then
        var sel := ui.selection.value;
        annotations + [Annotation(TempId, sel.text, "Selecting...", None, sel.start, sel.end, "rgba(59, 130, 246, 0.2)", "", "")]
      else annotations
    }

    /** `renderHighlightedContent`: with no spans the text is one plain chunk; otherwise the
        spans are stably sorted by start and chunked. */
    method RenderHighlightedContent() returns (chunks: seq<Chunk>)
      ensures AllHighlights() == [] ==> chunks == [Gap(content, 0)]
      ensures AllHighlights() != [] ==> ChunksFor(content, SortBy(AllHighlights(), StartOf), chunks)
    {
      var allHighlights := annotations;
      if ui.selection.Some? && ui.mode == CreateMode && !Filled(ui.editingId) {
        var sel := ui.selection.value;
        allHighlights := allHighlights + [Annotation(TempId, sel.text, "Selecting...", None, sel.start, sel.end, "rgba(59, 130, 246, 0.2)", "", "")];
      }
      if |allHighlights| == 0 {
        return [Gap(content, 0)];
      }
      var sorted := SortBy(allHighlights, StartOf);
      chunks := BuildChunks(content, sorted);
    }

    /** `renderInteractiveSegment` */
    method RenderInteractiveSegment(text: string, base: int) returns (r: Interactive)
      ensures !touchMode ==> r == Span(text)
      ensures touchMode ==> r.Words? && TokensFor(text, base, ui.touchStart, r.tokens)
    {
      if !touchMode {
        return Span(text);
      }
      var tokens := Tokenize(text, base, ui.touchStart);
      return Words(tokens);
    }
  }
}
