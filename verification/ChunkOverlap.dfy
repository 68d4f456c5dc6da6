/** How neighbouring chunks overlap: exactly what the overlap setting says, and no less. */
module ChunkOverlap {
  import opened Basics
  import opened Text
  import opened TextProofs
  import opened Chunking
  import opened ChunkingProofs

  // ---------------------------------------------------------------- what two neighbours share

  /** Distance between two slices: the chunk size less the overlap, which leaves at least one new character. */
  function Stride(cfg: Settings): int {
    cfg.maxTokens - Min(cfg.overlapTokens, cfg.maxTokens - 1)
  }

  /** The window at lo repeats the longest run of last paragraphs of lo'..hi that fits the overlap budget. */
  ghost predicate LongestRun(cfg: Settings, ps: seq<string>, before: nat, lo: nat, hi: nat)
    requires before <= lo <= hi <= |ps|
  {
    && SumRange(ps, lo, hi) <= Max(0, cfg.overlapTokens)
    && (lo > before ==> SumRange(ps, lo - 1, hi) > cfg.overlapTokens)
  }

  /**
   * Two chunks in a row. A window goes on where the one before it ends and repeats the longest run of its
   * last paragraphs within the overlap budget; slices of one paragraph lie a stride apart and repeat what
   * the one before has reached; nothing is repeated from or into a sliced paragraph.
   */
  ghost predicate Neighbours(cfg: Settings, ps: seq<string>, a: Span, b: Span)
    requires InRange(ps, a) && InRange(ps, b)
  {
    match (a, b)
    case (Window(lo, _, hi), Window(next, firstNew, _)) =>
      firstNew == hi && lo <= next <= hi && LongestRun(cfg, ps, lo, next, hi)
    case (Window(_, _, hi), Slice(p, start, firstNew, _)) => p == hi && start == 0 && firstNew == 0
    case (Slice(p, _, _, _), Window(next, firstNew, _)) => next == p + 1 && firstNew == p + 1
    case (Slice(p, start, _, end), Slice(q, next, firstNew, _)) =>
      if p == q then next == start + Stride(cfg) && firstNew == Max(next, end) && end == Min(start + cfg.maxTokens, |ps[p]|)
      else q == p + 1 && next == 0 && firstNew == 0
  }

  ghost predicate AllNeighbours(cfg: Settings, ps: seq<string>, spans: seq<Span>)
    requires AllInRange(ps, spans)
  {
    forall i :: 0 <= i < |spans| - 1 ==> Neighbours(cfg, ps, spans[i], spans[i + 1])
  }

  lemma NeighboursAppend(cfg: Settings, ps: seq<string>, a: seq<Span>, b: seq<Span>)
    requires AllInRange(ps, a) && AllInRange(ps, b) && AllNeighbours(cfg, ps, a) && AllNeighbours(cfg, ps, b)
    requires a != [] && b != [] ==> Neighbours(cfg, ps, a[|a| - 1], b[0])
    ensures AllInRange(ps, a + b) && AllNeighbours(cfg, ps, a + b)
  {
  }

  // ---------------------------------------------------------------- slices

  lemma {:induction false} SlicesAreNeighbours(cfg: Settings, ps: seq<string>, p: nat, cursor: nat)
    requires cfg.maxTokens >= 1 && p < |ps|
    ensures AllNeighbours(cfg, ps, Slices(cfg, ps, p, cursor))
    ensures forall i :: 0 <= i < |Slices(cfg, ps, p, cursor)| ==>
              Slices(cfg, ps, p, cursor)[i].Slice? && Slices(cfg, ps, p, cursor)[i].paragraph == p
    ensures cursor < |ps[p]| ==>
              Slices(cfg, ps, p, cursor) != [] && Slices(cfg, ps, p, cursor)[0] == SliceAt(cfg, ps, p, cursor)
    decreases |ps[p]| - cursor
  {
    if cursor < |ps[p]| {
      var rest := Slices(cfg, ps, p, cursor + Advance(cfg));
      SlicesAreNeighbours(cfg, ps, p, cursor + Advance(cfg));
      SlicesUnfold(cfg, ps, p, cursor);
      hide Slices;
      if cursor + Advance(cfg) < |ps[p]| {
        StrideApart(cfg, ps, p, cursor);
      } else {
        assert rest == [] by { NoSlices(cfg, ps, p, cursor + Advance(cfg)); }
      }
      NeighboursAppend(cfg, ps, [SliceAt(cfg, ps, p, cursor)], rest);
    }
  }

  lemma NoSlices(cfg: Settings, ps: seq<string>, p: nat, cursor: nat)
    requires cfg.maxTokens >= 1 && p < |ps| && cursor >= |ps[p]|
    ensures Slices(cfg, ps, p, cursor) == []
  {
  }

  lemma StrideApart(cfg: Settings, ps: seq<string>, p: nat, cursor: nat)
    requires cfg.maxTokens >= 1 && p < |ps| && cursor + Advance(cfg) < |ps[p]|
    ensures Neighbours(cfg, ps, SliceAt(cfg, ps, p, cursor), SliceAt(cfg, ps, p, cursor + Advance(cfg)))
  {
  }

  // ---------------------------------------------------------------- windows

  /** How the open window, which ends at i, continues the chunks that are closed. */
  ghost predicate OpenContinues(cfg: Settings, ps: seq<string>, i: nat, acc: Progress)
    requires Consistent(ps, i, acc)
  {
    if acc.spans == [] then acc.lo == 0 && acc.firstNew == 0
    else
      match acc.spans[|acc.spans| - 1]
      case Window(lo, _, hi) => acc.firstNew == hi && lo <= acc.lo <= hi && LongestRun(cfg, ps, lo, acc.lo, hi)
      case Slice(p, _, _, _) => acc.lo == p + 1 && acc.firstNew == p + 1
  }

  ghost predicate OverlapsHold(cfg: Settings, ps: seq<string>, i: nat, acc: Progress) {
    && Consistent(ps, i, acc) && AllNeighbours(cfg, ps, acc.spans) && OpenContinues(cfg, ps, i, acc)
    && (acc.lo == i ==> i == 0 || (acc.spans != [] && EndsAt(acc.spans[|acc.spans| - 1], i)))
  }

  /** Whether the new text of a chunk ends where paragraph i begins. */
  predicate EndsAt(span: Span, i: nat) {
    match span
    case Window(_, _, hi) => hi == i
    case Slice(p, _, _, _) => p + 1 == i
  }

  lemma CloseWindowNeighbours(cfg: Settings, ps: seq<string>, i: nat, acc: Progress)
    requires OverlapsHold(cfg, ps, i, acc)
    ensures AllNeighbours(cfg, ps, CloseWindow(ps, i, acc))
    ensures var closed := CloseWindow(ps, i, acc); i > 0 ==> closed != [] && EndsAt(closed[|closed| - 1], i)
  {
    if acc.lo < i {
      NeighboursAppend(cfg, ps, acc.spans, [Window(acc.lo, acc.firstNew, i)]);
    }
  }

  lemma MakeRoomOverlaps(cfg: Settings, ps: seq<string>, i: nat, acc: Progress)
    requires cfg.maxTokens >= 1 && i < |ps| && OverlapsHold(cfg, ps, i, acc)
    ensures OverlapsHold(cfg, ps, i, MakeRoom(cfg, ps, i, acc))
  {
    if Overflows(cfg, ps, i, acc) {
      CloseWindowNeighbours(cfg, ps, i, acc);
      OverlapIsLongest(cfg, ps, acc.lo, i, i);
    }
  }

  lemma SlicingOverlaps(cfg: Settings, ps: seq<string>, i: nat, room: Progress)
    requires cfg.maxTokens >= 1 && i < |ps| && OverlapsHold(cfg, ps, i, room) && ps[i] != ""
    ensures OverlapsHold(cfg, ps, i + 1, Progress(CloseWindow(ps, i, room) + Slices(cfg, ps, i, 0), i + 1, i + 1))
  {
    var closed, slices := CloseWindow(ps, i, room), Slices(cfg, ps, i, 0);
    CloseWindowNeighbours(cfg, ps, i, room);
    SlicesAreNeighbours(cfg, ps, i, 0);
    hide Slices, CloseWindow;
    NeighboursAppend(cfg, ps, closed, slices);
    assert (closed + slices)[|closed + slices| - 1] == slices[|slices| - 1];
  }

  lemma {:induction false} FeedOverlaps(cfg: Settings, ps: seq<string>, i: nat, acc: Progress)
    requires cfg.maxTokens >= 1 && i < |ps| && OverlapsHold(cfg, ps, i, acc)
    ensures OverlapsHold(cfg, ps, i + 1, Feed(cfg, ps, i, acc))
  {
    hide MakeRoom, CloseWindow, Slices, AllNeighbours, LongestRun;
    MakeRoomOverlaps(cfg, ps, i, acc);
    if EstimateTokens(ps[i]) > cfg.maxTokens {
      SlicingOverlaps(cfg, ps, i, MakeRoom(cfg, ps, i, acc));
    }
  }

  lemma {:induction false} FeedAllOverlaps(cfg: Settings, ps: seq<string>, i: nat)
    requires cfg.maxTokens >= 1 && i <= |ps|
    ensures OverlapsHold(cfg, ps, i, FeedAll(cfg, ps, i))
  {
    if i > 0 {
      hide Feed, OverlapsHold;
      FeedAllOverlaps(cfg, ps, i - 1);
      FeedOverlaps(cfg, ps, i - 1, FeedAll(cfg, ps, i - 1));
    }
  }

  /** Every two chunks in a row of the long path are neighbours in this sense. */
  lemma ChunksOverlapAsSet(cfg: Settings, ps: seq<string>, i: nat)
    requires cfg.maxTokens >= 1 && i + 1 < |Spans(cfg, ps)|
    ensures Neighbours(cfg, ps, Spans(cfg, ps)[i], Spans(cfg, ps)[i + 1])
  {
    FeedAllOverlaps(cfg, ps, |ps|);
    CloseWindowNeighbours(cfg, ps, |ps|, FeedAll(cfg, ps, |ps|));
  }

  /** The text of a window is its paragraphs: splitting it gives them back. */
  lemma {:induction false} WindowsSplitAgain(cfg: Settings, markdown: string, i: nat)
    requires cfg.maxTokens >= 1 && i < |Spans(cfg, Paragraphs(markdown))|
    requires Spans(cfg, Paragraphs(markdown))[i].Window?
    ensures var ps := Paragraphs(markdown);
            var span := Spans(cfg, ps)[i];
            Paragraphs(SpanText(ps, span)) == ps[span.lo..span.hi]
  {
    hide Paragraphs, Spans;
    var ps := Paragraphs(markdown);
    ParagraphsHaveNoBreak(markdown);
    SplittingUndoesJoining(ps, Spans(cfg, ps)[i].lo, Spans(cfg, ps)[i].hi);
  }
}
