/** What the text functions mean: which characters count as tokens, where paragraphs are cut, what stripping takes. */
module TextProofs {
  import opened Basics
  import opened Text

  // ---------------------------------------------------------------- tokens

  /** Position i counts as a token: a CJK character, or the first of a run of [A-Za-z0-9_./:-]. */
  predicate CountsAt(s: string, i: nat)
    requires i < |s|
  {
    '\U{4e00}' <= s[i] <= '\U{9fff}' || (InWord(s[i]) && (i == 0 || !InWord(s[i - 1])))
  }

  predicate InWord(c: char) {
    || 'A' <= c <= 'Z' || 'a' <= c <= 'z' || '0' <= c <= '9'
    || c in {'_', '.', '/', ':', '-'}
  }

  function Counted(s: string, n: nat): set<int>
    requires n <= |s|
  {
    set i | 0 <= i < n && CountsAt(s, i)
  }

  lemma CountedSnoc(s: string, n: nat)
    requires 0 < n <= |s|
    ensures |Counted(s, n)| == |Counted(s, n - 1)| + (if CountsAt(s, n - 1) then 1 else 0)
  {
    if CountsAt(s, n - 1) {
      assert Counted(s, n) == Counted(s, n - 1) + {n - 1};
    } else {
      assert Counted(s, n) == Counted(s, n - 1);
    }
  }

  lemma {:induction false} EstimateCountsUpTo(s: string, n: nat)
    requires n <= |s|
    ensures EstimateTokens(s[..n]) == |Counted(s, n)|
  {
    if n == 0 {
      assert s[..0] == "";
      assert Counted(s, 0) == {};
    } else {
      EstimateCountsUpTo(s, n - 1);
      assert s[..n][..n - 1] == s[..n - 1];
      EstimateSnoc(s[..n]);
      CountedSnoc(s, n);
    }
  }

  /** The token estimate counts CJK characters and runs of word characters. */
  lemma EstimateCounts(s: string)
    ensures EstimateTokens(s) == |Counted(s, |s|)|
  {
    EstimateCountsUpTo(s, |s|);
    assert s[..|s|] == s;
  }

  // ---------------------------------------------------------------- stripping

  lemma {:induction false} StripLeftCuts(s: string) returns (a: nat)
    ensures a <= |s| && IsBlank(s[..a]) && StripLeft(s) == s[a..]
  {
    a := 0;
    if s != "" && IsSpace(s[0]) {
      var b := StripLeftCuts(s[1..]);
      a := b + 1;
      assert s[..a] == [s[0]] + s[1..][..b];
    }
  }

  lemma {:induction false} StripRightCuts(s: string) returns (b: nat)
    ensures b <= |s| && IsBlank(s[b..]) && StripRight(s) == s[..b]
  {
    b := |s|;
    if s != "" && IsSpace(s[|s| - 1]) {
      var init := s[..|s| - 1];
      b := StripRightCuts(init);
      assert s[b..] == init[b..] + [s[|s| - 1]];
    }
  }

  /** Stripping leaves the stretch between the white space at the two ends. */
  lemma {:induction false} StripCuts(s: string) returns (before: string, after: string)
    ensures s == before + Strip(s) + after && IsBlank(before) && IsBlank(after)
    ensures Strip(s) != "" ==> !IsSpace(Strip(s)[0]) && !IsSpace(Strip(s)[|Strip(s)| - 1])
  {
    StripInk(s);
    var a := StripLeftCuts(s);
    var b := StripRightCuts(s[a..]);
    before, after := s[..a], s[a..][b..];
    assert s == s[..a] + s[a..];
  }

  // ---------------------------------------------------------------- where paragraphs are cut

  /** Two newlines with nothing but white space between them. */
  ghost predicate BreakAt(s: string, i: nat, j: nat) {
    i < j < |s| && s[i] == '\n' && s[j] == '\n' && forall k :: i <= k <= j ==> IsSpace(s[k])
  }

  ghost predicate HasBreak(s: string) {
    exists i: nat, j: nat :: BreakAt(s, i, j)
  }

  lemma {:induction false} RunEndIsMaximal(s: string, i: nat, j: nat)
    requires i <= j < |s| && forall k :: i <= k <= j ==> IsSpace(s[k])
    ensures RunEnd(s, i) > j
    decreases |s| - i
  {
    assert IsSpace(s[i]);
    if i < j {
      RunEndIsMaximal(s, i + 1, j);
    }
  }

  lemma {:induction false} LastNewlineIsAfter(s: string, lo: nat, hi: nat, j: nat)
    requires lo <= j < hi <= |s| && s[j] == '\n'
    ensures AfterLastNewline(s, lo, hi) > j
    decreases hi
  {
    if s[hi - 1] != '\n' {
      LastNewlineIsAfter(s, lo, hi - 1, j);
    }
  }

  lemma {:induction false} LastNewlineIsNewline(s: string, lo: nat, hi: nat)
    requires lo <= hi <= |s|
    ensures AfterLastNewline(s, lo, hi) > lo ==> s[AfterLastNewline(s, lo, hi) - 1] == '\n'
    decreases hi
  {
    if lo < hi && s[hi - 1] != '\n' {
      LastNewlineIsNewline(s, lo, hi - 1);
    }
  }

  lemma BreakIsSeen(s: string, i: nat, j: nat)
    requires BreakAt(s, i, j)
    ensures BreakEnd(s, i) > j
  {
    RunEndIsMaximal(s, i + 1, j);
    LastNewlineIsAfter(s, i + 1, RunEnd(s, i + 1), j);
  }

  lemma SeenIsBreak(s: string, i: nat)
    requires i < |s| && BreakEnd(s, i) > i
    ensures BreakAt(s, i, BreakEnd(s, i) - 1)
  {
    LastNewlineIsNewline(s, i + 1, RunEnd(s, i + 1));
  }

  lemma {:induction false} NoneBefore(s: string, i: nat, k: nat)
    requires i <= |s| && i <= k < NextBreak(s, i)
    ensures BreakEnd(s, k) == k
    decreases |s| - i
  {
    if i < k {
      NoneBefore(s, i + 1, k);
    }
  }

  /** The text before the first break has none. */
  lemma FirstPieceIsWhole(s: string)
    ensures !HasBreak(s[..NextBreak(s, 0)])
  {
    var b := NextBreak(s, 0);
    forall i: nat, j: nat ensures !BreakAt(s[..b], i, j) {
      if BreakAt(s[..b], i, j) {
        assert forall k :: i <= k <= j ==> s[..b][k] == s[k];
        BreakIsSeen(s, i, j);
        NoneBefore(s, 0, i);
      }
    }
  }

  lemma {:induction false} PiecesAreWhole(s: string)
    ensures forall p :: p in SplitBreaks(s) ==> !HasBreak(p)
    decreases |s|
  {
    var b := NextBreak(s, 0);
    FirstPieceIsWhole(s);
    if b == |s| {
      assert s[..b] == s;
    } else {
      PiecesAreWhole(s[BreakEnd(s, b)..]);
    }
  }

  /** A stretch of a text without a break has none. */
  lemma StretchHasNoBreak(before: string, p: string, after: string)
    requires !HasBreak(before + p + after)
    ensures !HasBreak(p)
  {
    var s := before + p + after;
    forall i: nat, j: nat ensures !BreakAt(p, i, j) {
      if BreakAt(p, i, j) {
        assert forall k :: i <= k <= j ==> s[|before| + k] == p[k];
        assert forall k :: |before| + i <= k <= |before| + j ==> s[k] == p[k - |before|];
        assert BreakAt(s, |before| + i, |before| + j);
      }
    }
  }

  /** Separators and pieces in turn, a separator first and last. */
  function Weave(seps: seq<string>, pieces: seq<string>): string
    requires |seps| == |pieces| + 1
    decreases |pieces|
  {
    if pieces == [] then seps[0] else seps[0] + (pieces[0] + Weave(seps[1..], pieces[1..]))
  }

  /** White space between, before and after the pieces; two pieces are parted by a break. */
  ghost predicate Parts(seps: seq<string>) {
    && seps != [] && (forall i :: 0 <= i < |seps| ==> IsBlank(seps[i]))
    && forall i :: 0 < i < |seps| - 1 ==> HasBreak(seps[i])
  }

  /** How some pieces and breaks make up a text. */
  ghost predicate CutsInto(s: string, seps: seq<string>, pieces: seq<string>) {
    |seps| == |pieces| + 1 && Parts(seps) && Weave(seps, pieces) == s
  }

  lemma BreakInside(a: string, b: string, c: string)
    requires HasBreak(b)
    ensures HasBreak(a + b + c)
  {
    if !HasBreak(a + b + c) {
      StretchHasNoBreak(a, b, c);
    }
  }

  lemma BlankAppend(a: string, b: string)
    requires IsBlank(a) && IsBlank(b)
    ensures IsBlank(a + b)
  {
  }

  /** More white space before the first separator. */
  lemma {:induction false} WidenFirst(rest: string, seps: seq<string>, pieces: seq<string>, before: string)
    requires CutsInto(rest, seps, pieces) && IsBlank(before)
    ensures CutsInto(before + rest, [before + seps[0]] + seps[1..], pieces)
  {
    hide HasBreak, IsBlank;
    var more := [before + seps[0]] + seps[1..];
    BlankAppend(before, seps[0]);
    assert more[1..] == seps[1..];
    assert forall i :: 0 < i < |more| ==> more[i] == seps[i];
    if pieces != [] {
      AppendAssociative(before, seps[0], pieces[0] + Weave(seps[1..], pieces[1..]));
    }
  }

  /** A piece before a text that begins with a break. */
  lemma {:induction false} AddFirst(rest: string, seps: seq<string>, pieces: seq<string>, before: string, piece: string)
    requires CutsInto(rest, seps, pieces) && IsBlank(before) && HasBreak(seps[0])
    ensures CutsInto(before + (piece + rest), [before] + seps, [piece] + pieces)
  {
    hide HasBreak, IsBlank;
    var more := [before] + seps;
    assert more[1..] == seps && ([piece] + pieces)[1..] == pieces;
    assert forall i :: 0 < i < |more| ==> more[i] == seps[i - 1];
  }

  /** One more piece in front; a blank one joins the separators around it. */
  lemma {:induction false} AddPiece(s: string, gap: string, rest: string, seps: seq<string>, pieces: seq<string>)
    returns (moreSeps: seq<string>, morePieces: seq<string>)
    requires CutsInto(rest, seps, pieces) && IsBlank(gap) && HasBreak(gap)
    ensures morePieces == (if Strip(s) == "" then [] else [Strip(s)]) + pieces
    ensures CutsInto(s + (gap + rest), moreSeps, morePieces)
  {
    hide HasBreak, IsBlank, Strip, Weave;
    var before, after := StripCuts(s);
    WidenFirst(rest, seps, pieces, gap);
    var parted := [gap + seps[0]] + seps[1..];
    WidenFirst(gap + rest, parted, pieces, after);
    var widened := [after + parted[0]] + parted[1..];
    BreakInside(after, gap, seps[0]);
    assert after + gap + seps[0] == after + (gap + seps[0]);
    if Strip(s) == "" {
      WidenFirst(after + (gap + rest), widened, pieces, before);
      moreSeps, morePieces := [before + widened[0]] + widened[1..], [] + pieces;
      assert [] + pieces == pieces;
      assert before + (after + (gap + rest)) == (before + "" + after) + (gap + rest);
    } else {
      AddFirst(after + (gap + rest), widened, pieces, before, Strip(s));
      moreSeps, morePieces := [before] + widened, [Strip(s)] + pieces;
      assert before + (Strip(s) + (after + (gap + rest))) == (before + Strip(s) + after) + (gap + rest);
    }
  }

  lemma {:induction false} OnePiece(s: string) returns (seps: seq<string>, pieces: seq<string>)
    ensures pieces == if Strip(s) == "" then [] else [Strip(s)]
    ensures CutsInto(s, seps, pieces)
  {
    var before, after := StripCuts(s);
    if Strip(s) == "" {
      assert s == before + after;
      BlankAppend(before, after);
      seps, pieces := [s], [];
    } else {
      seps, pieces := [before, after], [Strip(s)];
      assert seps[1..] == [after] && pieces[1..] == [];
      assert before + (Strip(s) + after) == s;
    }
  }

  lemma StripAllCons(first: string, rest: seq<string>)
    ensures StripAll([first] + rest) == (if Strip(first) == "" then [] else [Strip(first)]) + StripAll(rest)
  {
    assert ([first] + rest)[1..] == rest;
  }

  lemma GapIsBreak(s: string, b: nat)
    requires b < |s| && BreakEnd(s, b) > b
    ensures IsBlank(s[b..BreakEnd(s, b)]) && HasBreak(s[b..BreakEnd(s, b)]) && BreakEnd(s, b) <= |s|
  {
    var e := BreakEnd(s, b);
    SeenIsBreak(s, b);
    var gap := s[b..e];
    assert forall k :: 0 <= k < |gap| ==> gap[k] == s[b + k];
    assert BreakAt(gap, 0, |gap| - 1);
  }

  lemma ParagraphsUnfold(markdown: string)
    ensures var b := NextBreak(markdown, 0);
            var first := Strip(markdown[..b]);
            Paragraphs(markdown) ==
            (if first == "" then [] else [first]) +
              (if b == |markdown| then [] else Paragraphs(markdown[BreakEnd(markdown, b)..]))
  {
    var b := NextBreak(markdown, 0);
    if b == |markdown| {
      assert markdown[..b] == markdown;
      StripAllCons(markdown, []);
      assert [markdown] + [] == [markdown];
    } else {
      StripAllCons(markdown[..b], SplitBreaks(markdown[BreakEnd(markdown, b)..]));
    }
  }

  /**
   * A document is its paragraphs with white space between, before and after them, and two of them are always
   * parted by a break.
   */
  lemma {:induction false} ParagraphsAreCutAtBreaks(markdown: string) returns (seps: seq<string>)
    ensures CutsInto(markdown, seps, Paragraphs(markdown))
    decreases |markdown|
  {
    hide HasBreak, Strip, NextBreak, BreakEnd, Paragraphs, CutsInto, IsBlank;
    var b := NextBreak(markdown, 0);
    var pieces;
    ParagraphsUnfold(markdown);
    if b == |markdown| {
      assert markdown[..b] == markdown;
      seps, pieces := OnePiece(markdown);
      assert pieces == Paragraphs(markdown);
    } else {
      GapIsBreak(markdown, b);
      var e := BreakEnd(markdown, b);
      var gap, rest := markdown[b..e], markdown[e..];
      seps := ParagraphsAreCutAtBreaks(rest);
      seps, pieces := AddPiece(markdown[..b], gap, rest, seps, Paragraphs(rest));
      assert markdown[..b] + (gap + rest) == markdown;
    }
  }

  lemma {:induction false} StrippedHaveNoBreak(parts: seq<string>)
    requires forall p :: p in parts ==> !HasBreak(p)
    ensures forall p :: p in StripAll(parts) ==> !HasBreak(p)
  {
    if parts != [] {
      hide HasBreak, Strip;
      var before, after := StripCuts(parts[0]);
      assert parts[0] in parts;
      StretchHasNoBreak(before, Strip(parts[0]), after);
      StrippedHaveNoBreak(parts[1..]);
    }
  }

  lemma ParagraphsHaveNoBreak(markdown: string)
    ensures forall p :: p in Paragraphs(markdown) ==> IsParagraph(p) && !HasBreak(p)
  {
    PiecesAreWhole(markdown);
    StrippedHaveNoBreak(SplitBreaks(markdown));
    StripAllParagraphs(SplitBreaks(markdown));
  }

  // ---------------------------------------------------------------- splitting undoes joining

  lemma {:induction false} NextBreakIs(s: string, i: nat, b: nat)
    requires i <= b <= |s| && (forall k :: i <= k < b ==> BreakEnd(s, k) == k) && (b < |s| ==> BreakEnd(s, b) > b)
    ensures NextBreak(s, i) == b
    decreases b - i
  {
    hide BreakEnd;
    if i < b {
      NextBreakIs(s, i + 1, b);
    }
  }

  lemma BreakInPrefix(a: string, after: string, i: nat, j: nat)
    requires BreakAt(a + after, i, j) && j < |a|
    ensures HasBreak(a)
  {
    assert forall k :: i <= k <= j ==> a[k] == (a + after)[k];
    assert BreakAt(a, i, j);
  }

  /** No break starts inside a paragraph, whatever comes after it. */
  lemma {:induction false} NoBreakInside(a: string, after: string, i: nat)
    requires IsParagraph(a) && !HasBreak(a) && i < |a|
    ensures BreakEnd(a + after, i) == i
  {
    hide BreakEnd;
    var t := a + after;
    if BreakEnd(t, i) > i {
      var j := BreakEnd(t, i) - 1;
      SeenIsBreak(t, i);
      assert !IsSpace(t[|a| - 1]);
      BreakInPrefix(a, after, i, j);
    }
  }

  lemma {:induction false} BreakBetween(a: string, b: string)
    requires b != "" && !IsSpace(b[0])
    ensures BreakEnd(a + BREAK + b, |a|) == |a| + 2
  {
    hide BreakEnd;
    var t := a + BREAK + b;
    assert BreakAt(t, |a|, |a| + 1);
    BreakIsSeen(t, |a|, |a| + 1);
    SeenIsBreak(t, |a|);
    assert t[|a| + 2] == b[0];
  }

  lemma StripParagraph(p: string)
    requires IsParagraph(p)
    ensures Strip(p) == p
  {
  }

  lemma {:induction false} OneParagraph(p: string)
    requires IsParagraph(p) && !HasBreak(p)
    ensures Paragraphs(p) == [p]
  {
    hide HasBreak, BreakEnd, NextBreak, Strip;
    assert p + "" == p;
    forall k | 0 <= k < |p| ensures BreakEnd(p, k) == k {
      NoBreakInside(p, "", k);
    }
    NextBreakIs(p, 0, |p|);
    ParagraphsUnfold(p);
    StripParagraph(p);
    assert p[..|p|] == p;
  }

  lemma {:induction false} ParagraphThenRest(a: string, b: string)
    requires IsParagraph(a) && !HasBreak(a) && b != "" && !IsSpace(b[0])
    ensures Paragraphs(a + BREAK + b) == [a] + Paragraphs(b)
  {
    hide HasBreak, BreakEnd, NextBreak, Strip, Paragraphs;
    var t := a + BREAK + b;
    assert t == a + (BREAK + b);
    forall k | 0 <= k < |a| ensures BreakEnd(t, k) == k {
      NoBreakInside(a, BREAK + b, k);
    }
    BreakBetween(a, b);
    NextBreakIs(t, 0, |a|);
    ParagraphsUnfold(t);
    StripParagraph(a);
    assert t[..|a|] == a && t[|a| + 2..] == b;
  }

  lemma JoinOne(ps: seq<string>, lo: nat)
    requires lo < |ps|
    ensures JoinRange(ps, lo, lo + 1) == ps[lo]
  {
  }

  lemma JoinSnoc(ps: seq<string>, lo: nat, hi: nat)
    requires lo + 1 < hi <= |ps|
    ensures JoinRange(ps, lo, hi) == JoinRange(ps, lo, hi - 1) + BREAK + ps[hi - 1]
  {
  }

  lemma MoveParentheses(first: string, gap: string, middle: string, last: string)
    ensures (first + gap + middle) + gap + last == first + gap + (middle + gap + last)
  {
    AppendAssociative(first + gap, middle, gap);
    AppendAssociative(first + gap, middle + gap, last);
  }

  lemma {:induction false} JoinCons(ps: seq<string>, lo: nat, hi: nat)
    requires lo + 1 < hi <= |ps|
    ensures JoinRange(ps, lo, hi) == ps[lo] + BREAK + JoinRange(ps, lo + 1, hi)
    decreases hi
  {
    hide *;
    JoinSnoc(ps, lo, hi);
    if lo + 2 < hi {
      JoinCons(ps, lo, hi - 1);
      JoinSnoc(ps, lo + 1, hi);
      MoveParentheses(ps[lo], BREAK, JoinRange(ps, lo + 1, hi - 1), ps[hi - 1]);
    } else {
      JoinOne(ps, lo);
      JoinOne(ps, lo + 1);
    }
  }

  lemma {:induction false} JoinStart(ps: seq<string>, lo: nat, hi: nat)
    requires lo < hi <= |ps| && IsParagraph(ps[lo])
    ensures JoinRange(ps, lo, hi) != "" && JoinRange(ps, lo, hi)[0] == ps[lo][0]
    decreases hi
  {
    if lo + 1 < hi {
      JoinStart(ps, lo, hi - 1);
    }
  }

  /** Joined paragraphs split into the same paragraphs again. */
  lemma {:induction false} SplittingUndoesJoining(ps: seq<string>, lo: nat, hi: nat)
    requires lo < hi <= |ps| && forall p :: p in ps ==> IsParagraph(p) && !HasBreak(p)
    ensures Paragraphs(JoinRange(ps, lo, hi)) == ps[lo..hi]
    decreases hi - lo
  {
    hide HasBreak, Paragraphs, JoinRange;
    assert ps[lo] in ps;
    if lo + 1 == hi {
      JoinOne(ps, lo);
      OneParagraph(ps[lo]);
      assert ps[lo..hi] == [ps[lo]];
    } else {
      assert ps[lo + 1] in ps;
      JoinCons(ps, lo, hi);
      JoinStart(ps, lo + 1, hi);
      ParagraphThenRest(ps[lo], JoinRange(ps, lo + 1, hi));
      SplittingUndoesJoining(ps, lo + 1, hi);
      assert ps[lo..hi] == [ps[lo]] + ps[lo + 1..hi];
    }
  }
}
