/** The overlapping chunker of the document pipeline: spans of paragraphs and slices of long ones. */
module Chunking {
  import opened Basics
  import opened Options
  import opened Text

  datatype Settings = Settings(shortChars: int, maxTokens: int, overlapTokens: int) {
    /** Settings under which no text can fall between two chunks; see SlicesCoverUnlessOverlapNegative. */
    predicate Sensible() {
      0 <= shortChars && 1 <= maxTokens && 0 <= overlapTokens
    }
  }

  const SHORT_TOKENS: nat := 3500

  datatype Kind = Body | Summary | Question | Image

  datatype ChunkRecord = ChunkRecord(
    kind: Kind, index: nat, content: string, tokens: nat, asset: Option<nat>)

  /**
   * Where a chunk comes from. A window joins the paragraphs lo..hi and repeats lo..firstNew from the
   * chunk before it; a slice is the characters start..end of one paragraph and repeats start..firstNew.
   */
  datatype Span =
    | Window(lo: nat, firstNew: nat, hi: nat)
    | Slice(paragraph: nat, start: nat, firstNew: nat, end: nat)

  predicate InRange(ps: seq<string>, span: Span) {
    match span
    case Window(lo, firstNew, hi) => lo <= firstNew <= hi <= |ps| && lo < hi
    case Slice(p, start, firstNew, end) => p < |ps| && start <= firstNew <= end <= |ps[p]|
  }

  predicate AllInRange(ps: seq<string>, spans: seq<Span>) {
    forall i :: 0 <= i < |spans| ==> InRange(ps, spans[i])
  }

  function SpanText(ps: seq<string>, span: Span): string
    requires InRange(ps, span)
  {
    match span
    case Window(lo, _, hi) => JoinRange(ps, lo, hi)
    case Slice(p, start, _, end) => ps[p][start..end]
  }

  /** The part of a chunk that repeats text of the chunk before it. */
  function Repeated(ps: seq<string>, span: Span): string
    requires InRange(ps, span)
  {
    match span
    case Window(lo, firstNew, _) => JoinRange(ps, lo, firstNew)
    case Slice(p, start, firstNew, _) => ps[p][start..firstNew]
  }

  /** The text a chunk contributes, without paragraph breaks. */
  function Fresh(ps: seq<string>, span: Span): string
    requires InRange(ps, span)
  {
    match span
    case Window(_, firstNew, hi) => ConcatRange(ps, firstNew, hi)
    case Slice(p, _, firstNew, end) => ps[p][firstNew..end]
  }

  // ---------------------------------------------------------------- the chunker as a function

  /** Distance between the starts of two slices of an oversized paragraph. */
  function Advance(cfg: Settings): (n: int)
    ensures n >= 1
  {
    Max(1, cfg.maxTokens - Min(cfg.overlapTokens, Max(0, cfg.maxTokens - 1)))
  }

  /** The slice at cursor; it repeats what the slice before it, if any, already reached. */
  function SliceAt(cfg: Settings, ps: seq<string>, p: nat, cursor: nat): (span: Span)
    requires cfg.maxTokens >= 1 && p < |ps| && cursor < |ps[p]|
    ensures InRange(ps, span)
  {
    var size := |ps[p]|;
    var end := Min(cursor + cfg.maxTokens, size);
    var reached := if cursor == 0 then 0 else Min(cursor - Advance(cfg) + cfg.maxTokens, size);
    Slice(p, cursor, Min(Max(cursor, reached), end), end)
  }

  function Slices(cfg: Settings, ps: seq<string>, p: nat, cursor: nat): (spans: seq<Span>)
    requires cfg.maxTokens >= 1 && p < |ps|
    ensures AllInRange(ps, spans)
    decreases |ps[p]| - cursor
  {
    if cursor >= |ps[p]| then []
    else [SliceAt(cfg, ps, p, cursor)] + Slices(cfg, ps, p, cursor + Advance(cfg))
  }

  /** Start of the longest run of paragraphs ending at k that still fits the overlap budget. */
  function OverlapStart(cfg: Settings, ps: seq<string>, lo: nat, k: nat, used: nat): (start: nat)
    requires lo <= k <= |ps|
    ensures lo <= start <= k
    decreases k
  {
    if k > lo && used + EstimateTokens(ps[k - 1]) <= cfg.overlapTokens
    then OverlapStart(cfg, ps, lo, k - 1, used + EstimateTokens(ps[k - 1]))
    else k
  }

  /** Spans closed so far; the open window runs from lo to the current paragraph and repeats lo..firstNew. */
  datatype Progress = Progress(spans: seq<Span>, lo: nat, firstNew: nat)

  predicate Consistent(ps: seq<string>, i: nat, acc: Progress) {
    && acc.lo <= acc.firstNew <= i <= |ps|
    && AllInRange(ps, acc.spans)
  }

  function CloseWindow(ps: seq<string>, i: nat, acc: Progress): (spans: seq<Span>)
    requires Consistent(ps, i, acc)
    ensures AllInRange(ps, spans)
  {
    if acc.lo < i then acc.spans + [Window(acc.lo, acc.firstNew, i)] else acc.spans
  }

  /** Must the open window be closed before paragraph i joins it? */
  predicate Overflows(cfg: Settings, ps: seq<string>, i: nat, acc: Progress)
    requires i < |ps| && Consistent(ps, i, acc)
  {
    acc.lo < i && SumRange(ps, acc.lo, i) + EstimateTokens(ps[i]) > cfg.maxTokens
  }

  function MakeRoom(cfg: Settings, ps: seq<string>, i: nat, acc: Progress): (next: Progress)
    requires i < |ps| && Consistent(ps, i, acc)
    ensures Consistent(ps, i, next)
  {
    if Overflows(cfg, ps, i, acc)
    then Progress(CloseWindow(ps, i, acc), OverlapStart(cfg, ps, acc.lo, i, 0), i)
    else acc
  }

  function Feed(cfg: Settings, ps: seq<string>, i: nat, acc: Progress): (next: Progress)
    requires cfg.maxTokens >= 1 && i < |ps| && Consistent(ps, i, acc)
    ensures Consistent(ps, i + 1, next)
  {
    var room := MakeRoom(cfg, ps, i, acc);
    if EstimateTokens(ps[i]) > cfg.maxTokens
    then Progress(CloseWindow(ps, i, room) + Slices(cfg, ps, i, 0), i + 1, i + 1)
    else room
  }

  function FeedAll(cfg: Settings, ps: seq<string>, i: nat): (acc: Progress)
    requires cfg.maxTokens >= 1 && i <= |ps|
    ensures Consistent(ps, i, acc)
  {
    if i == 0 then Progress([], 0, 0) else Feed(cfg, ps, i - 1, FeedAll(cfg, ps, i - 1))
  }

  function Spans(cfg: Settings, ps: seq<string>): (spans: seq<Span>)
    requires cfg.maxTokens >= 1
    ensures AllInRange(ps, spans)
  {
    CloseWindow(ps, |ps|, FeedAll(cfg, ps, |ps|))
  }

  function Texts(ps: seq<string>, spans: seq<Span>): (texts: seq<string>)
    requires AllInRange(ps, spans)
    ensures |texts| == |spans|
    ensures forall i {:trigger texts[i]} :: 0 <= i < |spans| ==> texts[i] == SpanText(ps, spans[i])
  {
    seq(|spans|, i requires 0 <= i < |spans| => SpanText(ps, spans[i]))
  }

  function BodyRecord(index: nat, content: string): ChunkRecord {
    ChunkRecord(Body, index, content, EstimateTokens(content), None)
  }

  /** Records for the chunks that hold some ink; a skipped chunk leaves a gap in the numbering. */
  function Number(texts: seq<string>): seq<ChunkRecord> {
    if texts == [] then []
    else
      var n := |texts| - 1;
      Number(texts[..n]) + (if Strip(texts[n]) == "" then [] else [BodyRecord(n, texts[n])])
  }

  predicate IsShort(cfg: Settings, markdown: string) {
    |markdown| <= cfg.shortChars && EstimateTokens(markdown) <= SHORT_TOKENS
  }

  function BodyRecords(cfg: Settings, markdown: string): seq<ChunkRecord>
    requires cfg.maxTokens >= 1
  {
    if IsShort(cfg, markdown) then [BodyRecord(0, markdown)]
    else
      var ps := Paragraphs(markdown);
      Number(Texts(ps, Spans(cfg, ps)))
  }

  // ---------------------------------------------------------------- the chunker as the source runs it

  lemma TextsCons(ps: seq<string>, first: Span, rest: seq<Span>)
    requires InRange(ps, first) && AllInRange(ps, rest)
    ensures AllInRange(ps, [first] + rest)
    ensures Texts(ps, [first] + rest) == [SpanText(ps, first)] + Texts(ps, rest)
  {
  }

  lemma SliceStep(cfg: Settings, ps: seq<string>, p: nat, cursor: nat, before: seq<string>)
    requires cfg.maxTokens >= 1 && p < |ps| && cursor < |ps[p]|
    ensures before + Texts(ps, Slices(cfg, ps, p, cursor)) ==
            (before + [ps[p][cursor..Min(cursor + cfg.maxTokens, |ps[p]|)]]) +
              Texts(ps, Slices(cfg, ps, p, cursor + Advance(cfg)))
  {
    var first, rest := SliceAt(cfg, ps, p, cursor), Slices(cfg, ps, p, cursor + Advance(cfg));
    TextsCons(ps, first, rest);
    AppendAssociative(before, [SpanText(ps, first)], Texts(ps, rest));
  }

  method SliceParagraph(cfg: Settings, ghost ps: seq<string>, ghost p: nat, paragraph: string,
                        before: seq<string>)
    returns (chunks: seq<string>)
    requires cfg.maxTokens >= 1 && p < |ps| && ps[p] == paragraph
    ensures chunks == before + Texts(ps, Slices(cfg, ps, p, 0))
  {
    chunks := before;
    var step := cfg.maxTokens;
    var overlapChars := Min(cfg.overlapTokens, Max(0, step - 1));
    var advance := Max(1, step - overlapChars);
    var cursor := 0;
    ghost var goal := before + Texts(ps, Slices(cfg, ps, p, 0));
    while cursor < |paragraph|
      invariant 0 <= cursor && advance == Advance(cfg)
      invariant chunks + Texts(ps, Slices(cfg, ps, p, cursor)) == goal
      decreases |paragraph| - cursor
    {
      var piece := paragraph[cursor..Min(cursor + step, |paragraph|)];
      SliceStep(cfg, ps, p, cursor, chunks);
      chunks := chunks + [piece];
      cursor := cursor + advance;
    }
    assert chunks + Texts(ps, Slices(cfg, ps, p, cursor)) == chunks;
  }

  method OverlapOf(cfg: Settings, ghost ps: seq<string>, ghost lo: nat, ghost hi: nat, current: seq<string>)
    returns (overlap: seq<string>, tokens: nat)
    requires lo <= hi <= |ps| && current == ps[lo..hi]
    ensures overlap == ps[OverlapStart(cfg, ps, lo, hi, 0)..hi]
    ensures tokens == SumRange(ps, OverlapStart(cfg, ps, lo, hi, 0), hi)
  {
    overlap, tokens := [], 0;
    var k := |current|;
    while k > 0
      invariant 0 <= k <= |current|
      invariant overlap == current[k..] && tokens == SumRange(ps, lo + k, hi)
      invariant OverlapStart(cfg, ps, lo, lo + k, tokens) == OverlapStart(cfg, ps, lo, hi, 0)
    {
      var previous := current[k - 1];
      var previousTokens := EstimateTokens(previous);
      if tokens + previousTokens > cfg.overlapTokens {
        break;
      }
      SumRangeSplit(ps, lo + k - 1, lo + k, hi);
      assert SumRange(ps, lo + k - 1, lo + k) == SumRange(ps, lo + k - 1, lo + k - 1) + previousTokens;
      overlap := [previous] + overlap;
      tokens := tokens + previousTokens;
      k := k - 1;
    }
  }

  lemma TextsAppend(ps: seq<string>, a: seq<Span>, b: seq<Span>)
    requires AllInRange(ps, a) && AllInRange(ps, b)
    ensures Texts(ps, a + b) == Texts(ps, a) + Texts(ps, b)
  {
  }

  /** Closing the open window appends its joined text when it holds a paragraph. */
  lemma CloseWindowTexts(ps: seq<string>, i: nat, acc: Progress, current: seq<string>)
    requires Consistent(ps, i, acc) && current == ps[acc.lo..i]
    ensures Texts(ps, CloseWindow(ps, i, acc)) ==
            if current == [] then Texts(ps, acc.spans) else Texts(ps, acc.spans) + [Join(current)]
  {
    JoinShift(ps, acc.lo, i, |current|);
    if acc.lo < i {
      TextsAppend(ps, acc.spans, [Window(acc.lo, acc.firstNew, i)]);
    }
  }

  /** First half of the loop body: close a window that would overflow and keep its overlap. */
  method CloseFull(cfg: Settings, ghost ps: seq<string>, ghost i: nat, ghost acc: Progress,
                   chunks: seq<string>, current: seq<string>, currentTokens: nat, paragraphTokens: nat)
    returns (closed: seq<string>, next: seq<string>, nextTokens: nat)
    requires i < |ps| && EstimateTokens(ps[i]) == paragraphTokens && Consistent(ps, i, acc)
    requires chunks == Texts(ps, acc.spans)
    requires current == ps[acc.lo..i] && currentTokens == SumRange(ps, acc.lo, i)
    ensures closed == Texts(ps, MakeRoom(cfg, ps, i, acc).spans)
    ensures next == ps[MakeRoom(cfg, ps, i, acc).lo..i]
    ensures nextTokens == SumRange(ps, MakeRoom(cfg, ps, i, acc).lo, i)
  {
    closed, next, nextTokens := chunks, current, currentTokens;
    if current != [] && currentTokens + paragraphTokens > cfg.maxTokens {
      CloseWindowTexts(ps, i, acc, current);
      closed := chunks + [Join(current)];
      next, nextTokens := OverlapOf(cfg, ps, acc.lo, i, current);
    }
  }

  /** Second half, for an oversized paragraph: close the open window and slice the paragraph. */
  method CloseAndSlice(cfg: Settings, ghost ps: seq<string>, ghost i: nat, ghost room: Progress,
                       chunks: seq<string>, current: seq<string>, paragraph: string)
    returns (closed: seq<string>)
    requires cfg.maxTokens >= 1 && i < |ps| && ps[i] == paragraph && Consistent(ps, i, room)
    requires chunks == Texts(ps, room.spans) && current == ps[room.lo..i]
    ensures closed == Texts(ps, CloseWindow(ps, i, room) + Slices(cfg, ps, i, 0))
  {
    closed := chunks;
    CloseWindowTexts(ps, i, room, current);
    if current != [] {
      closed := closed + [Join(current)];
    }
    closed := SliceParagraph(cfg, ps, i, paragraph, closed);
    TextsAppend(ps, CloseWindow(ps, i, room), Slices(cfg, ps, i, 0));
  }

  method FeedParagraph(cfg: Settings, ghost ps: seq<string>, ghost i: nat, ghost acc: Progress,
                       chunks: seq<string>, current: seq<string>, currentTokens: nat, paragraph: string)
    returns (closed: seq<string>, next: seq<string>, nextTokens: nat)
    requires cfg.maxTokens >= 1 && i < |ps| && ps[i] == paragraph && Consistent(ps, i, acc)
    requires chunks == Texts(ps, acc.spans)
    requires current == ps[acc.lo..i] && currentTokens == SumRange(ps, acc.lo, i)
    ensures closed == Texts(ps, Feed(cfg, ps, i, acc).spans)
    ensures next == ps[Feed(cfg, ps, i, acc).lo..i + 1]
    ensures nextTokens == SumRange(ps, Feed(cfg, ps, i, acc).lo, i + 1)
  {
    var paragraphTokens := EstimateTokens(paragraph);
    closed, next, nextTokens := CloseFull(cfg, ps, i, acc, chunks, current, currentTokens, paragraphTokens);
    ghost var room := MakeRoom(cfg, ps, i, acc);
    if paragraphTokens > cfg.maxTokens {
      closed := CloseAndSlice(cfg, ps, i, room, closed, next, paragraph);
      next, nextTokens := [], 0;
    } else {
      assert ps[room.lo..i + 1] == ps[room.lo..i] + [paragraph];
      next := next + [paragraph];
      nextTokens := nextTokens + paragraphTokens;
    }
  }

  method ChunkParagraphs(cfg: Settings, ps: seq<string>) returns (chunks: seq<string>)
    requires cfg.maxTokens >= 1
    ensures chunks == Texts(ps, Spans(cfg, ps))
  {
    chunks := [];
    var current: seq<string>, currentTokens := [], 0;
    ghost var acc := FeedAll(cfg, ps, 0);
    for i := 0 to |ps|
      invariant acc == FeedAll(cfg, ps, i) && Consistent(ps, i, acc)
      invariant chunks == Texts(ps, acc.spans)
      invariant current == ps[acc.lo..i] && currentTokens == SumRange(ps, acc.lo, i)
    {
      chunks, current, currentTokens :=
        FeedParagraph(cfg, ps, i, acc, chunks, current, currentTokens, ps[i]);
      acc := Feed(cfg, ps, i, acc);
    }
    CloseWindowTexts(ps, |ps|, acc, current);
    if current != [] {
      chunks := chunks + [Join(current)];
    }
  }

  lemma NumberSnoc(texts: seq<string>, i: nat)
    requires i < |texts|
    ensures Number(texts[..i + 1]) ==
            Number(texts[..i]) + (if Strip(texts[i]) == "" then [] else [BodyRecord(i, texts[i])])
  {
    assert texts[..i + 1][..i] == texts[..i];
  }

  method NumberChunks(chunks: seq<string>) returns (records: seq<ChunkRecord>)
    ensures records == Number(chunks)
  {
    records := [];
    for index := 0 to |chunks|
      invariant records == Number(chunks[..index])
    {
      NumberSnoc(chunks, index);
      var chunk := chunks[index];
      if Strip(chunk) != "" {
        records := records + [ChunkRecord(Body, index, chunk, EstimateTokens(chunk), None)];
      }
    }
    assert chunks[..|chunks|] == chunks;
  }

  method ChunkBody(cfg: Settings, markdown: string) returns (records: seq<ChunkRecord>)
    requires cfg.maxTokens >= 1
    ensures records == BodyRecords(cfg, markdown)
  {
    var totalTokens := EstimateTokens(markdown);
    if |markdown| <= cfg.shortChars && totalTokens <= SHORT_TOKENS {
      records := [ChunkRecord(Body, 0, markdown, totalTokens, None)];
    } else {
      var chunks := ChunkParagraphs(cfg, Paragraphs(markdown));
      records := NumberChunks(chunks);
    }
  }
}
