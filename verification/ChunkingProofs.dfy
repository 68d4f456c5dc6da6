/** What the chunker guarantees: no text lost, a token budget, full windows, at least one record. */
module ChunkingProofs {
  import opened Basics
  import opened Options
  import opened Text
  import opened Chunking

  // ---------------------------------------------------------------- positions in the document

  /** Position of paragraph q in the concatenation of all paragraphs. */
  function Offset(ps: seq<string>, q: nat): nat
    requires q <= |ps|
  {
    if q == 0 then 0 else Offset(ps, q - 1) + |ps[q - 1]|
  }

  function NewFrom(ps: seq<string>, span: Span): nat
    requires InRange(ps, span)
  {
    match span
    case Window(_, firstNew, _) => Offset(ps, firstNew)
    case Slice(p, _, firstNew, _) => Offset(ps, p) + firstNew
  }

  function NewTo(ps: seq<string>, span: Span): nat
    requires InRange(ps, span)
  {
    match span
    case Window(_, _, hi) => Offset(ps, hi)
    case Slice(p, _, _, end) => Offset(ps, p) + end
  }

  function Starts(ps: seq<string>, spans: seq<Span>): (starts: seq<nat>)
    requires AllInRange(ps, spans)
    ensures |starts| == |spans|
    ensures forall i {:trigger starts[i]} :: 0 <= i < |spans| ==> starts[i] == NewFrom(ps, spans[i])
  {
    seq(|spans|, i requires 0 <= i < |spans| => NewFrom(ps, spans[i]))
  }

  function Ends(ps: seq<string>, spans: seq<Span>): (ends: seq<nat>)
    requires AllInRange(ps, spans)
    ensures |ends| == |spans|
    ensures forall i {:trigger ends[i]} :: 0 <= i < |spans| ==> ends[i] == NewTo(ps, spans[i])
  {
    seq(|spans|, i requires 0 <= i < |spans| => NewTo(ps, spans[i]))
  }

  /** Where the first i stretches end, when the first one starts at start. */
  function Reached(ends: seq<nat>, i: nat, start: nat): nat
    requires i <= |ends|
  {
    if i == 0 then start else ends[i - 1]
  }

  /** The stretches starts[i]..ends[i] lead from start to end, each beginning where the one before it ends. */
  ghost predicate Abut(start: nat, starts: seq<nat>, ends: seq<nat>, end: nat) {
    && |starts| == |ends|
    && (forall i {:trigger starts[i]} :: 0 <= i < |starts| ==> starts[i] == Reached(ends, i, start))
    && end == Reached(ends, |ends|, start)
  }

  /** The new parts of the spans follow each other from one position to another, without gap or repeat. */
  ghost predicate Tiles(ps: seq<string>, spans: seq<Span>, start: nat, end: nat) {
    AllInRange(ps, spans) && Abut(start, Starts(ps, spans), Ends(ps, spans), end)
  }

  function RepeatedTexts(ps: seq<string>, spans: seq<Span>): (texts: seq<string>)
    requires AllInRange(ps, spans)
    ensures |texts| == |spans|
    ensures forall i {:trigger texts[i]} :: 0 <= i < |spans| ==> texts[i] == Repeated(ps, spans[i])
  {
    seq(|spans|, i requires 0 <= i < |spans| => Repeated(ps, spans[i]))
  }

  /** Each repeated text ends the chunk before it; previous stands before the first chunk. */
  ghost predicate Follows(previous: string, repeated: seq<string>, texts: seq<string>) {
    && |repeated| == |texts|
    && forall i {:trigger repeated[i]} :: 0 <= i < |texts| ==> IsSuffix(repeated[i], if i == 0 then previous else texts[i - 1])
  }

  /** What a chunk repeats is the end of the chunk before it. */
  ghost predicate RepeatsPrevious(ps: seq<string>, previous: string, spans: seq<Span>)
    requires AllInRange(ps, spans)
  {
    Follows(previous, RepeatedTexts(ps, spans), Texts(ps, spans))
  }

  lemma AbutAppend(s1: seq<nat>, e1: seq<nat>, s2: seq<nat>, e2: seq<nat>, start: nat, mid: nat, end: nat)
    requires Abut(start, s1, e1, mid) && Abut(mid, s2, e2, end)
    ensures Abut(start, s1 + s2, e1 + e2, end)
  {
  }

  lemma PositionsAppend(ps: seq<string>, a: seq<Span>, b: seq<Span>)
    requires AllInRange(ps, a) && AllInRange(ps, b)
    ensures AllInRange(ps, a + b)
    ensures Starts(ps, a + b) == Starts(ps, a) + Starts(ps, b)
    ensures Ends(ps, a + b) == Ends(ps, a) + Ends(ps, b)
  {
  }

  lemma TilesAppend(ps: seq<string>, a: seq<Span>, b: seq<Span>, start: nat, mid: nat, end: nat)
    requires Tiles(ps, a, start, mid) && Tiles(ps, b, mid, end)
    ensures Tiles(ps, a + b, start, end)
  {
    PositionsAppend(ps, a, b);
    AbutAppend(Starts(ps, a), Ends(ps, a), Starts(ps, b), Ends(ps, b), start, mid, end);
  }

  lemma TilesOne(ps: seq<string>, span: Span)
    requires InRange(ps, span)
    ensures Tiles(ps, [span], NewFrom(ps, span), NewTo(ps, span))
  {
    assert Starts(ps, [span]) == [NewFrom(ps, span)] && Ends(ps, [span]) == [NewTo(ps, span)];
  }

  lemma TilesNothing(ps: seq<string>, at: nat)
    ensures Tiles(ps, [], at, at)
  {
  }

  lemma FollowsAppend(previous: string, r1: seq<string>, t1: seq<string>, r2: seq<string>, t2: seq<string>)
    requires Follows(previous, r1, t1)
    requires Follows(if t1 == [] then previous else t1[|t1| - 1], r2, t2)
    ensures Follows(previous, r1 + r2, t1 + t2)
  {
  }

  lemma FollowsCons(previous: string, repeated: string, text: string, r: seq<string>, t: seq<string>)
    requires IsSuffix(repeated, previous) && Follows(text, r, t)
    ensures Follows(previous, [repeated] + r, [text] + t)
  {
  }

  lemma RepeatedTextsAppend(ps: seq<string>, a: seq<Span>, b: seq<Span>)
    requires AllInRange(ps, a) && AllInRange(ps, b)
    ensures AllInRange(ps, a + b)
    ensures RepeatedTexts(ps, a + b) == RepeatedTexts(ps, a) + RepeatedTexts(ps, b)
  {
  }

  lemma RepeatedTextsCons(ps: seq<string>, span: Span, rest: seq<Span>)
    requires InRange(ps, span) && AllInRange(ps, rest)
    ensures AllInRange(ps, [span] + rest)
    ensures RepeatedTexts(ps, [span] + rest) == [Repeated(ps, span)] + RepeatedTexts(ps, rest)
  {
  }

  lemma RepeatsNothing(ps: seq<string>, previous: string)
    ensures RepeatsPrevious(ps, previous, [])
  {
  }

  lemma RepeatsCons(ps: seq<string>, previous: string, span: Span, rest: seq<Span>)
    requires InRange(ps, span) && AllInRange(ps, rest)
    requires IsSuffix(Repeated(ps, span), previous) && RepeatsPrevious(ps, SpanText(ps, span), rest)
    ensures RepeatsPrevious(ps, previous, [span] + rest)
  {
    FollowsCons(previous, Repeated(ps, span), SpanText(ps, span), RepeatedTexts(ps, rest), Texts(ps, rest));
    RepeatedTextsCons(ps, span, rest);
    TextsCons(ps, span, rest);
  }

  function LastText(ps: seq<string>, spans: seq<Span>): string
    requires AllInRange(ps, spans)
  {
    if spans == [] then "" else SpanText(ps, spans[|spans| - 1])
  }

  lemma RepeatsAppend(ps: seq<string>, a: seq<Span>, b: seq<Span>)
    requires AllInRange(ps, a) && AllInRange(ps, b)
    requires RepeatsPrevious(ps, "", a) && RepeatsPrevious(ps, LastText(ps, a), b)
    ensures AllInRange(ps, a + b) && RepeatsPrevious(ps, "", a + b)
  {
    RepeatedTextsAppend(ps, a, b);
    TextsAppend(ps, a, b);
    FollowsAppend("", RepeatedTexts(ps, a), Texts(ps, a), RepeatedTexts(ps, b), Texts(ps, b));
  }

  // ---------------------------------------------------------------- slices of an oversized paragraph

  lemma SlicesUnfold(cfg: Settings, ps: seq<string>, p: nat, cursor: nat)
    requires cfg.maxTokens >= 1 && p < |ps| && cursor < |ps[p]|
    ensures Slices(cfg, ps, p, cursor) ==
            [SliceAt(cfg, ps, p, cursor)] + Slices(cfg, ps, p, cursor + Advance(cfg))
  {
  }

  /** The text before cursor is covered up to reached. */
  ghost predicate SlicedTo(cfg: Settings, ps: seq<string>, p: nat, cursor: nat, reached: nat)
    requires p < |ps|
  {
    if cursor == 0 then reached == 0
    else Advance(cfg) <= cursor < |ps[p]| + Advance(cfg) &&
         reached == Min(cursor - Advance(cfg) + cfg.maxTokens, |ps[p]|)
  }

  lemma SliceTiles(cfg: Settings, ps: seq<string>, p: nat, cursor: nat, reached: nat)
    requires cfg.Sensible() && p < |ps| && cursor < |ps[p]| && SlicedTo(cfg, ps, p, cursor, reached)
    ensures var s := SliceAt(cfg, ps, p, cursor);
            && Tiles(ps, [s], Offset(ps, p) + reached, Offset(ps, p) + s.end)
            && SlicedTo(cfg, ps, p, cursor + Advance(cfg), s.end)
  {
    TilesOne(ps, SliceAt(cfg, ps, p, cursor));
  }

  lemma SlicesTileEnd(cfg: Settings, ps: seq<string>, p: nat, cursor: nat, reached: nat)
    requires cfg.Sensible() && p < |ps| && cursor >= |ps[p]| && SlicedTo(cfg, ps, p, cursor, reached)
    ensures Tiles(ps, Slices(cfg, ps, p, cursor), Offset(ps, p) + reached, Offset(ps, p) + |ps[p]|)
  {
    assert Slices(cfg, ps, p, cursor) == [];
    TilesNothing(ps, Offset(ps, p) + reached);
  }

  lemma SlicesTileStep(cfg: Settings, ps: seq<string>, p: nat, cursor: nat, reached: nat)
    requires cfg.Sensible() && p < |ps| && cursor < |ps[p]| && SlicedTo(cfg, ps, p, cursor, reached)
    requires Tiles(ps, Slices(cfg, ps, p, cursor + Advance(cfg)),
                   Offset(ps, p) + SliceAt(cfg, ps, p, cursor).end, Offset(ps, p) + |ps[p]|)
    ensures Tiles(ps, Slices(cfg, ps, p, cursor), Offset(ps, p) + reached, Offset(ps, p) + |ps[p]|)
  {
    var s, at := SliceAt(cfg, ps, p, cursor), Offset(ps, p);
    SliceTiles(cfg, ps, p, cursor, reached);
    SlicesUnfold(cfg, ps, p, cursor);
    TilesAppend(ps, [s], Slices(cfg, ps, p, cursor + Advance(cfg)), at + reached, at + s.end, at + |ps[p]|);
  }

  lemma {:induction false} SlicesTile(cfg: Settings, ps: seq<string>, p: nat, cursor: nat, reached: nat)
    requires cfg.Sensible() && p < |ps| && SlicedTo(cfg, ps, p, cursor, reached)
    ensures Tiles(ps, Slices(cfg, ps, p, cursor), Offset(ps, p) + reached, Offset(ps, p) + |ps[p]|)
    decreases |ps[p]| - cursor
  {
    if cursor < |ps[p]| {
      SliceTiles(cfg, ps, p, cursor, reached);
      SlicesTile(cfg, ps, p, cursor + Advance(cfg), SliceAt(cfg, ps, p, cursor).end);
      SlicesTileStep(cfg, ps, p, cursor, reached);
    } else {
      SlicesTileEnd(cfg, ps, p, cursor, reached);
    }
  }

  lemma WholeParagraphTiles(cfg: Settings, ps: seq<string>, p: nat)
    requires cfg.Sensible() && p < |ps|
    ensures Tiles(ps, Slices(cfg, ps, p, 0), Offset(ps, p), Offset(ps, p + 1))
  {
    SlicesTile(cfg, ps, p, 0, 0);
    assert Offset(ps, p + 1) == Offset(ps, p) + |ps[p]|;
    assert Offset(ps, p) + 0 == Offset(ps, p);
  }

  /** Holds of the text before the slice at cursor: it is the slice one step back. */
  ghost predicate Precedes(cfg: Settings, ps: seq<string>, p: nat, cursor: nat, previous: string)
    requires cfg.Sensible() && p < |ps|
  {
    cursor == 0 ||
    (Advance(cfg) <= cursor < |ps[p]| + Advance(cfg) &&
     previous == ps[p][cursor - Advance(cfg)..Min(cursor - Advance(cfg) + cfg.maxTokens, |ps[p]|)])
  }

  lemma TailOfSlice(text: string, a: nat, b: nat, c: nat)
    requires a <= b <= c <= |text|
    ensures IsSuffix(text[b..c], text[a..c])
  {
    assert text[a..c][b - a..] == text[b..c];
  }

  lemma SliceRepeats(cfg: Settings, ps: seq<string>, p: nat, cursor: nat, previous: string)
    requires cfg.Sensible() && p < |ps| && cursor < |ps[p]| && Precedes(cfg, ps, p, cursor, previous)
    ensures IsSuffix(Repeated(ps, SliceAt(cfg, ps, p, cursor)), previous)
  {
    if cursor == 0 {
      assert Repeated(ps, SliceAt(cfg, ps, p, 0)) == "";
    } else {
      var back := cursor - Advance(cfg);
      TailOfSlice(ps[p], back, cursor, Min(back + cfg.maxTokens, |ps[p]|));
    }
  }

  lemma PrecedesNext(cfg: Settings, ps: seq<string>, p: nat, cursor: nat)
    requires cfg.Sensible() && p < |ps| && cursor < |ps[p]|
    ensures Precedes(cfg, ps, p, cursor + Advance(cfg), SpanText(ps, SliceAt(cfg, ps, p, cursor)))
  {
    assert cursor + Advance(cfg) - Advance(cfg) == cursor;
  }

  lemma SlicesRepeatStep(cfg: Settings, ps: seq<string>, p: nat, cursor: nat, previous: string)
    requires cfg.Sensible() && p < |ps| && cursor < |ps[p]| && Precedes(cfg, ps, p, cursor, previous)
    requires RepeatsPrevious(ps, SpanText(ps, SliceAt(cfg, ps, p, cursor)),
                             Slices(cfg, ps, p, cursor + Advance(cfg)))
    ensures RepeatsPrevious(ps, previous, Slices(cfg, ps, p, cursor))
  {
    SliceRepeats(cfg, ps, p, cursor, previous);
    RepeatsCons(ps, previous, SliceAt(cfg, ps, p, cursor), Slices(cfg, ps, p, cursor + Advance(cfg)));
    SlicesUnfold(cfg, ps, p, cursor);
  }

  lemma SlicesRepeatEnd(cfg: Settings, ps: seq<string>, p: nat, cursor: nat, previous: string)
    requires cfg.maxTokens >= 1 && p < |ps| && cursor >= |ps[p]|
    ensures RepeatsPrevious(ps, previous, Slices(cfg, ps, p, cursor))
  {
    assert Slices(cfg, ps, p, cursor) == [];
    RepeatsNothing(ps, previous);
  }

  lemma {:induction false} SlicesRepeat(cfg: Settings, ps: seq<string>, p: nat, cursor: nat, previous: string)
    requires cfg.Sensible() && p < |ps| && Precedes(cfg, ps, p, cursor, previous)
    ensures RepeatsPrevious(ps, previous, Slices(cfg, ps, p, cursor))
    decreases |ps[p]| - cursor
  {
    if cursor < |ps[p]| {
      PrecedesNext(cfg, ps, p, cursor);
      SlicesRepeat(cfg, ps, p, cursor + Advance(cfg), SpanText(ps, SliceAt(cfg, ps, p, cursor)));
      SlicesRepeatStep(cfg, ps, p, cursor, previous);
    } else {
      SlicesRepeatEnd(cfg, ps, p, cursor, previous);
    }
  }

  // ---------------------------------------------------------------- nothing is lost

  /** What holds after the first i paragraphs: closed chunks reach exactly where the open window is new. */
  ghost predicate NothingLost(ps: seq<string>, i: nat, acc: Progress) {
    && Consistent(ps, i, acc)
    && Tiles(ps, acc.spans, 0, Offset(ps, acc.firstNew))
    && RepeatsPrevious(ps, "", acc.spans)
    && IsSuffix(JoinRange(ps, acc.lo, acc.firstNew), LastText(ps, acc.spans))
  }

  lemma CloseWindowTiles(ps: seq<string>, i: nat, acc: Progress)
    requires Consistent(ps, i, acc) && Tiles(ps, acc.spans, 0, Offset(ps, acc.firstNew))
    ensures Tiles(ps, CloseWindow(ps, i, acc), 0, Offset(ps, i))
  {
    if acc.lo < i {
      var w := Window(acc.lo, acc.firstNew, i);
      TilesOne(ps, w);
      TilesAppend(ps, acc.spans, [w], 0, Offset(ps, acc.firstNew), Offset(ps, i));
    }
  }

  lemma CloseWindowRepeats(ps: seq<string>, i: nat, acc: Progress)
    requires Consistent(ps, i, acc) && RepeatsPrevious(ps, "", acc.spans)
    requires IsSuffix(JoinRange(ps, acc.lo, acc.firstNew), LastText(ps, acc.spans))
    ensures RepeatsPrevious(ps, "", CloseWindow(ps, i, acc))
    ensures acc.lo < i ==> LastText(ps, CloseWindow(ps, i, acc)) == JoinRange(ps, acc.lo, i)
  {
    if acc.lo < i {
      var w := Window(acc.lo, acc.firstNew, i);
      RepeatsNothing(ps, SpanText(ps, w));
      RepeatsCons(ps, LastText(ps, acc.spans), w, []);
      assert [w] + [] == [w];
      RepeatsAppend(ps, acc.spans, [w]);
    }
  }

  lemma MakeRoomKeeps(cfg: Settings, ps: seq<string>, i: nat, acc: Progress)
    requires i < |ps| && NothingLost(ps, i, acc)
    ensures NothingLost(ps, i, MakeRoom(cfg, ps, i, acc))
  {
    if Overflows(cfg, ps, i, acc) {
      CloseWindowTiles(ps, i, acc);
      CloseWindowRepeats(ps, i, acc);
      JoinSuffix(ps, acc.lo, OverlapStart(cfg, ps, acc.lo, i, 0), i);
    }
  }

  lemma SlicingTiles(cfg: Settings, ps: seq<string>, i: nat, room: Progress)
    requires cfg.Sensible() && i < |ps| && NothingLost(ps, i, room)
    ensures Tiles(ps, CloseWindow(ps, i, room) + Slices(cfg, ps, i, 0), 0, Offset(ps, i + 1))
  {
    CloseWindowTiles(ps, i, room);
    WholeParagraphTiles(cfg, ps, i);
    TilesAppend(ps, CloseWindow(ps, i, room), Slices(cfg, ps, i, 0), 0, Offset(ps, i), Offset(ps, i + 1));
  }

  lemma SlicingRepeats(cfg: Settings, ps: seq<string>, i: nat, room: Progress)
    requires cfg.Sensible() && i < |ps| && NothingLost(ps, i, room)
    ensures AllInRange(ps, CloseWindow(ps, i, room) + Slices(cfg, ps, i, 0))
    ensures RepeatsPrevious(ps, "", CloseWindow(ps, i, room) + Slices(cfg, ps, i, 0))
  {
    CloseWindowRepeats(ps, i, room);
    var closed := CloseWindow(ps, i, room);
    SlicesRepeat(cfg, ps, i, 0, LastText(ps, closed));
    RepeatsAppend(ps, closed, Slices(cfg, ps, i, 0));
  }

  lemma OpenNothing(ps: seq<string>, i: nat, spans: seq<Span>)
    requires i <= |ps| && AllInRange(ps, spans)
    requires Tiles(ps, spans, 0, Offset(ps, i)) && RepeatsPrevious(ps, "", spans)
    ensures NothingLost(ps, i, Progress(spans, i, i))
  {
  }

  lemma FeedKeeps(cfg: Settings, ps: seq<string>, i: nat, acc: Progress)
    requires cfg.Sensible() && i < |ps| && NothingLost(ps, i, acc)
    ensures NothingLost(ps, i + 1, Feed(cfg, ps, i, acc))
  {
    MakeRoomKeeps(cfg, ps, i, acc);
    var room := MakeRoom(cfg, ps, i, acc);
    if EstimateTokens(ps[i]) > cfg.maxTokens {
      SlicingTiles(cfg, ps, i, room);
      SlicingRepeats(cfg, ps, i, room);
      OpenNothing(ps, i + 1, CloseWindow(ps, i, room) + Slices(cfg, ps, i, 0));
    }
  }

  lemma {:induction false} FeedAllKeeps(cfg: Settings, ps: seq<string>, i: nat)
    requires cfg.Sensible() && i <= |ps|
    ensures NothingLost(ps, i, FeedAll(cfg, ps, i))
  {
    if i == 0 {
      RepeatsNothing(ps, "");
    } else {
      FeedAllKeeps(cfg, ps, i - 1);
      FeedKeeps(cfg, ps, i - 1, FeedAll(cfg, ps, i - 1));
    }
  }

  /**
   * Chunking loses nothing. Leaving out of every chunk what it repeats, the chunks cover the paragraphs
   * from the first character to the last, in order and without gap, and a chunk repeats only text that
   * ends the chunk before it.
   */
  lemma ChunksTileTheParagraphs(cfg: Settings, ps: seq<string>)
    requires cfg.Sensible()
    ensures Tiles(ps, Spans(cfg, ps), 0, Offset(ps, |ps|))
    ensures RepeatsPrevious(ps, "", Spans(cfg, ps))
  {
    FeedAllKeeps(cfg, ps, |ps|);
    CloseWindowTiles(ps, |ps|, FeedAll(cfg, ps, |ps|));
    CloseWindowRepeats(ps, |ps|, FeedAll(cfg, ps, |ps|));
  }

  // ---------------------------------------------------------------- the text can be put together again

  function FreshTexts(ps: seq<string>, spans: seq<Span>): (texts: seq<string>)
    requires AllInRange(ps, spans)
    ensures |texts| == |spans|
    ensures forall i {:trigger texts[i]} :: 0 <= i < |spans| ==> texts[i] == Fresh(ps, spans[i])
  {
    seq(|spans|, i requires 0 <= i < |spans| => Fresh(ps, spans[i]))
  }

  /** What the chunks contribute, one after the other. */
  function Contributed(ps: seq<string>, spans: seq<Span>): string
    requires AllInRange(ps, spans)
  {
    Document(FreshTexts(ps, spans))
  }

  /** The document as one text: its paragraphs with nothing between them. */
  function Document(ps: seq<string>): string {
    ConcatRange(ps, 0, |ps|)
  }

  lemma {:induction false} ConcatSplit(ps: seq<string>, lo: nat, mid: nat, hi: nat)
    requires lo <= mid <= hi <= |ps|
    ensures ConcatRange(ps, lo, hi) == ConcatRange(ps, lo, mid) + ConcatRange(ps, mid, hi)
    decreases hi
  {
    if mid < hi {
      ConcatSplit(ps, lo, mid, hi - 1);
      AppendAssociative(ConcatRange(ps, lo, mid), ConcatRange(ps, mid, hi - 1), ps[hi - 1]);
    }
  }

  lemma {:induction false} OffsetIsLength(ps: seq<string>, q: nat)
    requires q <= |ps|
    ensures Offset(ps, q) == |ConcatRange(ps, 0, q)|
  {
    if q > 0 {
      OffsetIsLength(ps, q - 1);
    }
  }

  lemma StretchOf(a: string, b: string, c: string, text: string)
    requires text == a + b + c
    ensures text[|a|..|a| + |b|] == b
  {
  }

  lemma DocumentRange(ps: seq<string>, a: nat, b: nat)
    requires a <= b <= |ps|
    ensures Offset(ps, a) <= Offset(ps, b) <= |Document(ps)|
    ensures Document(ps)[Offset(ps, a)..Offset(ps, b)] == ConcatRange(ps, a, b)
  {
    OffsetIsLength(ps, a);
    OffsetIsLength(ps, b);
    ConcatSplit(ps, 0, a, b);
    ConcatSplit(ps, 0, b, |ps|);
    StretchOf(ConcatRange(ps, 0, a), ConcatRange(ps, a, b), ConcatRange(ps, b, |ps|), Document(ps));
  }

  lemma SliceOfSlice(text: string, at: nat, part: string, a: nat, b: nat)
    requires at + |part| <= |text| && text[at..at + |part|] == part && a <= b <= |part|
    ensures text[at + a..at + b] == part[a..b]
  {
    forall k | 0 <= k < b - a ensures text[at + a..at + b][k] == part[a..b][k] {
      assert part[a + k] == text[at..at + |part|][a + k];
    }
  }

  /** The new part of a span is the stretch of the document between its two positions. */
  lemma FreshIsStretch(ps: seq<string>, span: Span)
    requires InRange(ps, span)
    ensures NewFrom(ps, span) <= NewTo(ps, span) <= |Document(ps)|
    ensures Document(ps)[NewFrom(ps, span)..NewTo(ps, span)] == Fresh(ps, span)
  {
    match span
    case Window(lo, firstNew, hi) => DocumentRange(ps, firstNew, hi);
    case Slice(p, start, firstNew, end) =>
      DocumentRange(ps, p, p + 1);
      assert ConcatRange(ps, p, p + 1) == ConcatRange(ps, p, p) + ps[p] == ps[p];
      SliceOfSlice(Document(ps), Offset(ps, p), ps[p], firstNew, end);
  }

  lemma ExtendPrefix(text: string, a: nat, b: nat)
    requires a <= b <= |text|
    ensures text[..a] + text[a..b] == text[..b]
  {
  }

  ghost predicate Stretches(doc: string, starts: seq<nat>, ends: seq<nat>, parts: seq<string>) {
    && |starts| == |ends| == |parts|
    && forall i {:trigger parts[i]} :: 0 <= i < |parts| ==>
         starts[i] <= ends[i] <= |doc| && doc[starts[i]..ends[i]] == parts[i]
  }

  /** Stretches that abut spell the text they were cut from. */
  lemma {:induction false} AbutRebuild(doc: string, starts: seq<nat>, ends: seq<nat>, parts: seq<string>, n: nat)
    requires Abut(0, starts, ends, Reached(ends, |ends|, 0)) && Stretches(doc, starts, ends, parts)
    requires n <= |parts|
    ensures Reached(ends, n, 0) <= |doc| && ConcatRange(parts, 0, n) == doc[..Reached(ends, n, 0)]
  {
    if n > 0 {
      AbutRebuild(doc, starts, ends, parts, n - 1);
      var part := parts[n - 1];
      assert doc[starts[n - 1]..ends[n - 1]] == part;
      ExtendPrefix(doc, starts[n - 1], ends[n - 1]);
    }
  }

  lemma SpansAreStretches(ps: seq<string>, spans: seq<Span>)
    requires AllInRange(ps, spans)
    ensures Stretches(Document(ps), Starts(ps, spans), Ends(ps, spans), FreshTexts(ps, spans))
  {
    forall i | 0 <= i < |spans|
      ensures Starts(ps, spans)[i] <= Ends(ps, spans)[i] <= |Document(ps)|
      ensures Document(ps)[Starts(ps, spans)[i]..Ends(ps, spans)[i]] == FreshTexts(ps, spans)[i]
    {
      FreshIsStretch(ps, spans[i]);
    }
  }

  lemma ChunksRebuildTheDocument(cfg: Settings, ps: seq<string>)
    requires cfg.Sensible()
    ensures Contributed(ps, Spans(cfg, ps)) == Document(ps)
  {
    var spans := Spans(cfg, ps);
    ChunksTileTheParagraphs(cfg, ps);
    SpansAreStretches(ps, spans);
    AbutRebuild(Document(ps), Starts(ps, spans), Ends(ps, spans), FreshTexts(ps, spans), |spans|);
    OffsetIsLength(ps, |ps|);
    assert Document(ps)[..|Document(ps)|] == Document(ps);
  }

  /** On the long path every character of the document that is not white space reaches the chunks once. */
  lemma ChunksKeepInk(cfg: Settings, markdown: string)
    requires cfg.Sensible()
    ensures var ps := Paragraphs(markdown);
            Ink(Contributed(ps, Spans(cfg, ps))) == Ink(markdown)
  {
    ChunksRebuildTheDocument(cfg, Paragraphs(markdown));
    ParagraphsKeepInk(markdown);
  }

  // ---------------------------------------------------------------- properties of single spans

  predicate FitsBudget(cfg: Settings, ps: seq<string>, span: Span)
    requires InRange(ps, span)
  {
    EstimateTokens(SpanText(ps, span)) <= cfg.maxTokens + Max(0, cfg.overlapTokens)
  }

  /** A window that is not the last one ends where the next paragraph would not fit any more. */
  predicate EndsFull(cfg: Settings, ps: seq<string>, span: Span)
    requires InRange(ps, span)
  {
    span.Window? && span.hi < |ps| ==>
      SumRange(ps, span.lo, span.hi) + EstimateTokens(ps[span.hi]) > cfg.maxTokens
  }

  ghost predicate AllSound(cfg: Settings, ps: seq<string>, spans: seq<Span>) {
    && AllInRange(ps, spans)
    && forall i :: 0 <= i < |spans| ==> FitsBudget(cfg, ps, spans[i]) && EndsFull(cfg, ps, spans[i])
  }

  lemma AllSoundAppend(cfg: Settings, ps: seq<string>, a: seq<Span>, b: seq<Span>)
    requires AllSound(cfg, ps, a) && AllSound(cfg, ps, b)
    ensures AllSound(cfg, ps, a + b)
  {
  }

  lemma AllSoundOne(cfg: Settings, ps: seq<string>, span: Span)
    requires InRange(ps, span) && FitsBudget(cfg, ps, span) && EndsFull(cfg, ps, span)
    ensures AllSound(cfg, ps, [span])
  {
  }

  /** What holds after the first i paragraphs: closed chunks are sound, the open window is within budget. */
  ghost predicate WithinBudget(cfg: Settings, ps: seq<string>, i: nat, acc: Progress) {
    && Consistent(ps, i, acc)
    && AllSound(cfg, ps, acc.spans)
    && SumRange(ps, acc.lo, i) <= cfg.maxTokens + Max(0, cfg.overlapTokens)
  }

  /** The overlap kept from a window is the longest run of its last paragraphs within the overlap budget. */
  lemma {:induction false} OverlapIsLongest(cfg: Settings, ps: seq<string>, lo: nat, k: nat, hi: nat)
    requires lo <= k <= hi <= |ps|
    requires SumRange(ps, k, hi) <= Max(0, cfg.overlapTokens)
    ensures var start := OverlapStart(cfg, ps, lo, k, SumRange(ps, k, hi));
            && SumRange(ps, start, hi) <= Max(0, cfg.overlapTokens)
            && (start > lo ==> SumRange(ps, start - 1, hi) > cfg.overlapTokens)
    decreases k
  {
    if k > lo {
      SumRangeSplit(ps, k - 1, k, hi);
      assert SumRange(ps, k - 1, k) == SumRange(ps, k - 1, k - 1) + EstimateTokens(ps[k - 1]);
      if SumRange(ps, k - 1, hi) <= cfg.overlapTokens {
        OverlapIsLongest(cfg, ps, lo, k - 1, hi);
      }
    }
  }

  lemma CloseWindowSound(cfg: Settings, ps: seq<string>, i: nat, acc: Progress)
    requires WithinBudget(cfg, ps, i, acc)
    requires acc.lo < i < |ps| ==> SumRange(ps, acc.lo, i) + EstimateTokens(ps[i]) > cfg.maxTokens
    ensures AllSound(cfg, ps, CloseWindow(ps, i, acc))
  {
    if acc.lo < i {
      var w := Window(acc.lo, acc.firstNew, i);
      JoinTokens(ps, acc.lo, i);
      AllSoundOne(cfg, ps, w);
      AllSoundAppend(cfg, ps, acc.spans, [w]);
    }
  }

  lemma {:induction false} SliceSound(cfg: Settings, ps: seq<string>, p: nat, cursor: nat)
    requires cfg.maxTokens >= 1 && p < |ps| && cursor < |ps[p]|
    ensures AllSound(cfg, ps, [SliceAt(cfg, ps, p, cursor)])
  {
    hide EstimateTokens;
    var s := SliceAt(cfg, ps, p, cursor);
    EstimateWithinLength(SpanText(ps, s));
    AllSoundOne(cfg, ps, s);
  }

  lemma {:induction false} SlicesSound(cfg: Settings, ps: seq<string>, p: nat, cursor: nat)
    requires cfg.maxTokens >= 1 && p < |ps|
    ensures AllSound(cfg, ps, Slices(cfg, ps, p, cursor))
    decreases |ps[p]| - cursor
  {
    if cursor < |ps[p]| {
      hide AllSound, Slices, SliceAt;
      var s := SliceAt(cfg, ps, p, cursor);
      SliceSound(cfg, ps, p, cursor);
      SlicesSound(cfg, ps, p, cursor + Advance(cfg));
      SlicesUnfold(cfg, ps, p, cursor);
      AllSoundAppend(cfg, ps, [s], Slices(cfg, ps, p, cursor + Advance(cfg)));
    }
  }

  lemma MakeRoomSound(cfg: Settings, ps: seq<string>, i: nat, acc: Progress)
    requires i < |ps| && WithinBudget(cfg, ps, i, acc) && cfg.maxTokens >= 1
    ensures var room := MakeRoom(cfg, ps, i, acc);
            && WithinBudget(cfg, ps, i, room)
            && (EstimateTokens(ps[i]) <= cfg.maxTokens ==>
                  SumRange(ps, room.lo, i) + EstimateTokens(ps[i]) <= cfg.maxTokens + Max(0, cfg.overlapTokens))
  {
    if Overflows(cfg, ps, i, acc) {
      CloseWindowSound(cfg, ps, i, acc);
      OverlapIsLongest(cfg, ps, acc.lo, i, i);
    }
  }

  lemma FeedSound(cfg: Settings, ps: seq<string>, i: nat, acc: Progress)
    requires cfg.maxTokens >= 1 && i < |ps| && WithinBudget(cfg, ps, i, acc)
    ensures WithinBudget(cfg, ps, i + 1, Feed(cfg, ps, i, acc))
  {
    MakeRoomSound(cfg, ps, i, acc);
    var room := MakeRoom(cfg, ps, i, acc);
    if EstimateTokens(ps[i]) > cfg.maxTokens {
      CloseWindowSound(cfg, ps, i, room);
      SlicesSound(cfg, ps, i, 0);
      AllSoundAppend(cfg, ps, CloseWindow(ps, i, room), Slices(cfg, ps, i, 0));
    }
  }

  lemma {:induction false} FeedAllSound(cfg: Settings, ps: seq<string>, i: nat)
    requires cfg.maxTokens >= 1 && i <= |ps|
    ensures WithinBudget(cfg, ps, i, FeedAll(cfg, ps, i))
  {
    if i > 0 {
      hide Feed, WithinBudget;
      FeedAllSound(cfg, ps, i - 1);
      FeedSound(cfg, ps, i - 1, FeedAll(cfg, ps, i - 1));
    }
  }

  /**
   * Every chunk of the long path is within the chunk budget plus the overlap budget, and a window is
   * closed only when the next paragraph would not fit the chunk budget.
   */
  lemma ChunksFitTheBudget(cfg: Settings, ps: seq<string>, i: nat)
    requires cfg.maxTokens >= 1 && i < |Spans(cfg, ps)|
    ensures EstimateTokens(SpanText(ps, Spans(cfg, ps)[i])) <= cfg.maxTokens + Max(0, cfg.overlapTokens)
    ensures EndsFull(cfg, ps, Spans(cfg, ps)[i])
  {
    FeedAllSound(cfg, ps, |ps|);
    CloseWindowSound(cfg, ps, |ps|, FeedAll(cfg, ps, |ps|));
    assert FitsBudget(cfg, ps, Spans(cfg, ps)[i]);
  }

  // ---------------------------------------------------------------- negative overlap

  predicate Covered(spans: seq<Span>, k: nat) {
    exists i :: 0 <= i < |spans| && spans[i].Slice? && spans[i].start <= k < spans[i].end
  }

  lemma CoveredCons(first: Span, rest: seq<Span>, k: nat)
    ensures Covered([first] + rest, k) <==>
            (first.Slice? && first.start <= k < first.end) || Covered(rest, k)
  {
    var all := [first] + rest;
    assert all[0] == first;
    if Covered(rest, k) {
      var i :| 0 <= i < |rest| && rest[i].Slice? && rest[i].start <= k < rest[i].end;
      assert all[i + 1] == rest[i];
    }
    if Covered(all, k) {
      var i :| 0 <= i < |all| && all[i].Slice? && all[i].start <= k < all[i].end;
      assert i > 0 ==> all[i] == rest[i - 1];
    }
  }

  lemma {:induction false} SlicesCover(cfg: Settings, ps: seq<string>, p: nat, cursor: nat, k: nat)
    requires cfg.maxTokens >= 1 && cfg.overlapTokens >= 0 && p < |ps| && cursor <= k < |ps[p]|
    ensures Covered(Slices(cfg, ps, p, cursor), k)
    decreases |ps[p]| - cursor
  {
    SlicesUnfold(cfg, ps, p, cursor);
    CoveredCons(SliceAt(cfg, ps, p, cursor), Slices(cfg, ps, p, cursor + Advance(cfg)), k);
    if k >= cursor + cfg.maxTokens {
      SlicesCover(cfg, ps, p, cursor + Advance(cfg), k);
    }
  }

  lemma {:induction false} SlicesStartLater(cfg: Settings, ps: seq<string>, p: nat, cursor: nat, k: nat)
    requires cfg.maxTokens >= 1 && p < |ps| && k < cursor
    ensures !Covered(Slices(cfg, ps, p, cursor), k)
    decreases |ps[p]| - cursor
  {
    if cursor < |ps[p]| {
      SlicesUnfold(cfg, ps, p, cursor);
      CoveredCons(SliceAt(cfg, ps, p, cursor), Slices(cfg, ps, p, cursor + Advance(cfg)), k);
      SlicesStartLater(cfg, ps, p, cursor + Advance(cfg), k);
    }
  }

  lemma FirstGap(cfg: Settings, ps: seq<string>, p: nat)
    requires cfg.maxTokens >= 1 && cfg.overlapTokens < 0 && p < |ps| && |ps[p]| > cfg.maxTokens
    ensures !Covered(Slices(cfg, ps, p, 0), cfg.maxTokens)
  {
    SlicesUnfold(cfg, ps, p, 0);
    CoveredCons(SliceAt(cfg, ps, p, 0), Slices(cfg, ps, p, Advance(cfg)), cfg.maxTokens);
    SlicesStartLater(cfg, ps, p, Advance(cfg), cfg.maxTokens);
  }

  /** The slices of an oversized paragraph cover all of it exactly when the overlap setting is not negative. */
  lemma SlicesCoverUnlessOverlapNegative(cfg: Settings, ps: seq<string>, p: nat)
    requires cfg.maxTokens >= 1 && p < |ps| && EstimateTokens(ps[p]) > cfg.maxTokens
    ensures (forall k :: 0 <= k < |ps[p]| ==> Covered(Slices(cfg, ps, p, 0), k)) <==> cfg.overlapTokens >= 0
  {
    EstimateWithinLength(ps[p]);
    if cfg.overlapTokens < 0 {
      FirstGap(cfg, ps, p);
      var k := cfg.maxTokens;
      assert 0 <= k < |ps[p]| && !Covered(Slices(cfg, ps, p, 0), k);
    } else {
      forall k | 0 <= k < |ps[p]|
        ensures Covered(Slices(cfg, ps, p, 0), k)
      {
        SlicesCover(cfg, ps, p, 0, k);
      }
    }
  }

  // ---------------------------------------------------------------- the records

  lemma JoinInkStep(joined: string, run: string, p: string)
    requires Ink(joined) == Ink(run)
    ensures Ink(joined + BREAK + p) == Ink(run + p)
  {
    InkAppend(run, p);
    CutInk(joined, BREAK, p);
  }

  lemma {:induction false} JoinInk(ps: seq<string>, lo: nat, hi: nat)
    requires hi <= |ps|
    ensures Ink(JoinRange(ps, lo, hi)) == Ink(ConcatRange(ps, lo, hi))
    decreases hi
  {
    hide Ink;
    if lo + 1 == hi {
      assert ConcatRange(ps, lo, hi) == ConcatRange(ps, lo, lo) + ps[lo] == ps[lo];
    } else if lo < hi {
      JoinInk(ps, lo, hi - 1);
      JoinInkStep(JoinRange(ps, lo, hi - 1), ConcatRange(ps, lo, hi - 1), ps[hi - 1]);
    }
  }

  predicate HasInk(s: string) {
    Ink(s) != ""
  }

  lemma SpanInk(ps: seq<string>, span: Span)
    requires InRange(ps, span) && HasInk(Fresh(ps, span))
    ensures HasInk(SpanText(ps, span))
  {
    match span
    case Window(lo, firstNew, hi) =>
      JoinInk(ps, lo, hi);
      ConcatSplit(ps, lo, firstNew, hi);
      InkAppend(ConcatRange(ps, lo, firstNew), ConcatRange(ps, firstNew, hi));
    case Slice(p, start, firstNew, end) =>
      assert ps[p][start..end] == ps[p][start..firstNew] + ps[p][firstNew..end];
      InkAppend(ps[p][start..firstNew], ps[p][firstNew..end]);
  }

  lemma InkOfEither(a: string, b: string)
    requires HasInk(a + b)
    ensures HasInk(a) || HasInk(b)
  {
    InkAppend(a, b);
  }

  lemma {:induction false} SomePartHasInk(parts: seq<string>, n: nat) returns (i: nat)
    requires n <= |parts| && HasInk(ConcatRange(parts, 0, n))
    ensures i < |parts| && HasInk(parts[i])
  {
    InkOfEither(ConcatRange(parts, 0, n - 1), parts[n - 1]);
    if HasInk(parts[n - 1]) {
      i := n - 1;
    } else {
      i := SomePartHasInk(parts, n - 1);
    }
  }

  lemma SomeSpanHasInk(ps: seq<string>, spans: seq<Span>) returns (i: nat)
    requires AllInRange(ps, spans) && HasInk(Contributed(ps, spans))
    ensures i < |spans| && HasInk(SpanText(ps, spans[i]))
  {
    i := SomePartHasInk(FreshTexts(ps, spans), |spans|);
    SpanInk(ps, spans[i]);
  }

  ghost predicate IsRecordOf(texts: seq<string>, r: ChunkRecord) {
    r.index < |texts| && r == BodyRecord(r.index, texts[r.index]) && Strip(r.content) != ""
  }

  ghost predicate Increasing(rs: seq<ChunkRecord>) {
    forall i, j :: 0 <= i < j < |rs| ==> rs[i].index < rs[j].index
  }

  /** Records are numbered by the position of their chunk, in increasing order, and blank chunks are left out. */
  lemma {:induction false} NumberedInOrder(texts: seq<string>)
    ensures forall i :: 0 <= i < |Number(texts)| ==> IsRecordOf(texts, Number(texts)[i])
    ensures Increasing(Number(texts))
  {
    if texts != [] {
      var n := |texts| - 1;
      var init := Number(texts[..n]);
      NumberedInOrder(texts[..n]);
      forall i | 0 <= i < |init| ensures IsRecordOf(texts, init[i]) && init[i].index < n {
        assert IsRecordOf(texts[..n], init[i]);
      }
    }
  }

  lemma {:induction false} NumberKeeps(texts: seq<string>, i: nat)
    requires i < |texts| && Strip(texts[i]) != ""
    ensures BodyRecord(i, texts[i]) in Number(texts)
  {
    if i < |texts| - 1 {
      NumberKeeps(texts[..|texts| - 1], i);
    }
  }

  /** A short document is one record that holds it as it is. */
  lemma ShortIsOneRecord(cfg: Settings, markdown: string)
    requires cfg.maxTokens >= 1 && |markdown| <= cfg.shortChars && EstimateTokens(markdown) <= 3500
    ensures BodyRecords(cfg, markdown) == [ChunkRecord(Body, 0, markdown, EstimateTokens(markdown), None)]
  {
  }

  /** Any other document has exactly one record for each of its chunks that is not blank, with the chunk's text. */
  lemma LongIsItsChunks(cfg: Settings, markdown: string, r: ChunkRecord)
    requires cfg.maxTokens >= 1 && (|markdown| > cfg.shortChars || EstimateTokens(markdown) > 3500)
    ensures var ps := Paragraphs(markdown);
            r in BodyRecords(cfg, markdown) <==>
              && r.index < |Spans(cfg, ps)| && r.kind == Body && r.asset == None
              && r.content == SpanText(ps, Spans(cfg, ps)[r.index]) && r.tokens == EstimateTokens(r.content)
              && !IsBlank(r.content)
    ensures Increasing(BodyRecords(cfg, markdown))
  {
    hide Spans;
    var ps := Paragraphs(markdown);
    var texts := Texts(ps, Spans(cfg, ps));
    NumberedInOrder(texts);
    StripInk(r.content);
    InkOfBlank(r.content);
    InkOfBlank(Strip(r.content));
    if r in BodyRecords(cfg, markdown) {
      var k :| 0 <= k < |Number(texts)| && Number(texts)[k] == r;
      assert IsRecordOf(texts, r);
    } else if r.index < |texts| && !IsBlank(r.content) && r.content == texts[r.index] {
      NumberKeeps(texts, r.index);
    }
  }

  /** Only a slice of an oversized paragraph can be left out of the records for being blank. */
  lemma WindowsAreNotBlank(cfg: Settings, markdown: string, i: nat)
    requires cfg.maxTokens >= 1 && i < |Spans(cfg, Paragraphs(markdown))|
    requires Spans(cfg, Paragraphs(markdown))[i].Window?
    ensures Strip(SpanText(Paragraphs(markdown), Spans(cfg, Paragraphs(markdown))[i])) != ""
  {
    var ps := Paragraphs(markdown);
    var span := Spans(cfg, ps)[i];
    StripInk(SpanText(ps, span));
    ParagraphsKeepInk(markdown);
    JoinInk(ps, span.lo, span.hi);
    ConcatRangeCons(ps, span.lo, span.hi);
    InkAppend(ps[span.lo], ConcatRange(ps, span.lo + 1, span.hi));
    assert IsParagraph(ps[span.lo]);
  }

  lemma LongPathYieldsARecord(cfg: Settings, markdown: string)
    requires cfg.Sensible() && Ink(markdown) != ""
    ensures var ps := Paragraphs(markdown);
            |Number(Texts(ps, Spans(cfg, ps)))| >= 1
  {
    var ps := Paragraphs(markdown);
    var spans := Spans(cfg, ps);
    ChunksKeepInk(cfg, markdown);
    var i := SomeSpanHasInk(ps, spans);
    StripInk(Texts(ps, spans)[i]);
    NumberKeeps(Texts(ps, spans), i);
  }

  lemma StrippedHasInk(markdown: string)
    requires Strip(markdown) == markdown && markdown != ""
    ensures Ink(markdown) != ""
  {
    StripInk(markdown);
    InkOfBlank(markdown);
  }

  ghost predicate SoundBodies(rs: seq<ChunkRecord>) {
    && |rs| >= 1
    && (forall i :: 0 <= i < |rs| ==> rs[i].kind == Body && rs[i].asset == None)
    && Increasing(rs)
  }

  /** Every cleaned document yields at least one body record, and no two with the same number. */
  lemma BodyRecordsNonEmpty(cfg: Settings, markdown: string)
    requires cfg.Sensible() && Strip(markdown) == markdown
    ensures SoundBodies(BodyRecords(cfg, markdown))
  {
    if !IsShort(cfg, markdown) {
      var ps := Paragraphs(markdown);
      var texts := Texts(ps, Spans(cfg, ps));
      NumberedInOrder(texts);
      assert EstimateTokens("") == 0;
      StrippedHasInk(markdown);
      LongPathYieldsARecord(cfg, markdown);
      forall i | 0 <= i < |Number(texts)|
        ensures Number(texts)[i].kind == Body && Number(texts)[i].asset == None
      {
        assert IsRecordOf(texts, Number(texts)[i]);
      }
    }
  }
}
