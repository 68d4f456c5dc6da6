/** Character classes, token estimates and the string operations of the document pipeline. */
module Text {
  // ---------------------------------------------------------------- character classes

  /** What Python's str.strip and the regular-expression class \s call white space. */
  predicate IsSpace(c: char) {
    || '\t' <= c <= '\r' || '\U{1c}' <= c <= ' '
    || c == '\U{85}' || c == '\U{a0}' || c == '\U{1680}' || '\U{2000}' <= c <= '\U{200a}'
    || c == '\U{2028}' || c == '\U{2029}' || c == '\U{202f}' || c == '\U{205f}' || c == '\U{3000}'
  }

  predicate IsCjk(c: char) {
    '\U{4e00}' <= c <= '\U{9fff}'
  }

  predicate IsAlnum(c: char) {
    'A' <= c <= 'Z' || 'a' <= c <= 'z' || '0' <= c <= '9'
  }

  /** The class [A-Za-z0-9_./:-] of the token estimate. */
  predicate IsWord(c: char) {
    IsAlnum(c) || c == '_' || c == '.' || c == '/' || c == ':' || c == '-'
  }

  // ---------------------------------------------------------------- the token estimate

  function CjkCount(s: string): nat {
    if s == "" then 0 else (if IsCjk(s[0]) then 1 else 0) + CjkCount(s[1..])
  }

  /** Length of the greedy match of the word class at the start of s. */
  function WordPrefix(s: string): (n: nat)
    ensures n <= |s|
  {
    if s == "" || !IsWord(s[0]) then 0 else 1 + WordPrefix(s[1..])
  }

  /** Number of matches of one or more word characters, scanning left to right. */
  function WordRuns(s: string): nat
    decreases |s|
  {
    if s == "" then 0
    else if IsWord(s[0]) then 1 + WordRuns(s[1 + WordPrefix(s[1..])..])
    else WordRuns(s[1..])
  }

  function EstimateTokens(s: string): nat {
    CjkCount(s) + WordRuns(s)
  }

  /** What the last character of s adds to the estimate of the text before it. */
  function LastWeight(s: string): nat
    requires s != ""
  {
    var c := s[|s| - 1];
    if IsCjk(c) then 1
    else if IsWord(c) && (|s| == 1 || !IsWord(s[|s| - 2])) then 1
    else 0
  }

  lemma {:induction false} CjkCountAppend(a: string, b: string)
    ensures CjkCount(a + b) == CjkCount(a) + CjkCount(b)
  {
    if a == "" {
      assert a + b == b;
    } else {
      assert (a + b)[1..] == a[1..] + b;
      CjkCountAppend(a[1..], b);
    }
  }

  lemma {:induction false} WordPrefixSnoc(s: string, c: char)
    ensures WordPrefix(s + [c]) ==
            if WordPrefix(s) < |s| then WordPrefix(s)
            else |s| + (if IsWord(c) then 1 else 0)
  {
    if s == "" {
      assert ([c])[1..] == "";
    } else {
      assert (s + [c])[1..] == s[1..] + [c];
      WordPrefixSnoc(s[1..], c);
    }
  }

  /** When the greedy match takes all of s, the last character of s is a word character. */
  lemma {:induction false} WordPrefixAll(s: string)
    requires s != "" && WordPrefix(s) == |s|
    ensures IsWord(s[|s| - 1])
  {
    if |s| > 1 {
      WordPrefixAll(s[1..]);
    }
  }

  lemma {:induction false} WordRunsSnoc(s: string, c: char)
    ensures WordRuns(s + [c]) ==
            WordRuns(s) + (if IsWord(c) && (s == "" || !IsWord(s[|s| - 1])) then 1 else 0)
    decreases |s|
  {
    var t := s + [c];
    if s == "" {
      assert t[1..] == "";
    } else if IsWord(s[0]) {
      assert t[1..] == s[1..] + [c];
      WordPrefixSnoc(s[1..], c);
      var n := WordPrefix(s[1..]);
      if n < |s| - 1 {
        assert t[1 + n..] == s[1 + n..] + [c];
        WordRunsSnoc(s[1 + n..], c);
      } else {
        if n > 0 {
          WordPrefixAll(s[1..]);
        }
        assert s[1 + n..] == "";
        if IsWord(c) {
          assert t[1 + (n + 1)..] == "";
        } else {
          assert t[1 + n..] == [c];
          assert ([c])[1..] == "";
        }
      }
    } else {
      assert t[1..] == s[1..] + [c];
      WordRunsSnoc(s[1..], c);
    }
  }

  /** The estimate grows by the weight of the last character: the fact behind every bound below. */
  lemma EstimateSnoc(s: string)
    requires s != ""
    ensures EstimateTokens(s) == EstimateTokens(s[..|s| - 1]) + LastWeight(s)
  {
    var init, c := s[..|s| - 1], s[|s| - 1];
    assert s == init + [c];
    CjkCountAppend(init, [c]);
    assert CjkCount([c]) == (if IsCjk(c) then 1 else 0) + CjkCount([c][1..]);
    WordRunsSnoc(init, c);
  }

  lemma {:induction false} EstimateWithinLength(s: string)
    ensures EstimateTokens(s) <= |s|
  {
    if s != "" {
      EstimateSnoc(s);
      EstimateWithinLength(s[..|s| - 1]);
    }
  }

  lemma {:induction false} EstimatePrefixMonotone(s: string, i: nat, j: nat)
    requires i <= j <= |s|
    ensures EstimateTokens(s[..i]) <= EstimateTokens(s[..j])
    decreases j
  {
    if i < j {
      assert s[..j][..j - 1] == s[..j - 1];
      EstimateSnoc(s[..j]);
      EstimatePrefixMonotone(s, i, j - 1);
    }
  }

  const BREAK: string := "\n\n"

  /** No run of word characters crosses the paragraph break, so the estimate is additive over it. */
  lemma {:induction false} EstimateAdditive(a: string, b: string)
    ensures EstimateTokens(a + BREAK + b) == EstimateTokens(a) + EstimateTokens(b)
    decreases |b|
  {
    var t := a + BREAK + b;
    if b == "" {
      assert t == a + BREAK;
      assert t[..|t| - 1] == a + ['\n'];
      EstimateSnoc(t);
      assert (a + ['\n'])[..|a|] == a;
      EstimateSnoc(a + ['\n']);
    } else {
      var init := b[..|b| - 1];
      assert t[..|t| - 1] == a + BREAK + init;
      EstimateSnoc(t);
      EstimateSnoc(b);
      EstimateAdditive(a, init);
      assert t[|t| - 1] == b[|b| - 1];
      if |b| == 1 {
        assert t[|t| - 2] == '\n';
      } else {
        assert t[|t| - 2] == b[|b| - 2];
      }
    }
  }

  // ---------------------------------------------------------------- joining paragraphs

  /** The paragraphs lo..hi joined by paragraph breaks. */
  function JoinRange(ps: seq<string>, lo: nat, hi: nat): string
    requires hi <= |ps|
    decreases hi
  {
    if lo >= hi then ""
    else if lo + 1 == hi then ps[lo]
    else JoinRange(ps, lo, hi - 1) + BREAK + ps[hi - 1]
  }

  function Join(parts: seq<string>): string {
    JoinRange(parts, 0, |parts|)
  }

  function SumRange(ps: seq<string>, lo: nat, hi: nat): nat
    requires hi <= |ps|
    decreases hi
  {
    if lo >= hi then 0 else SumRange(ps, lo, hi - 1) + EstimateTokens(ps[hi - 1])
  }

  /** The paragraphs lo..hi with nothing between them. */
  function ConcatRange(ps: seq<string>, lo: nat, hi: nat): string
    requires hi <= |ps|
    decreases hi
  {
    if lo >= hi then "" else ConcatRange(ps, lo, hi - 1) + ps[hi - 1]
  }

  lemma {:induction false} JoinShift(ps: seq<string>, lo: nat, hi: nat, n: nat)
    requires lo + n <= hi <= |ps|
    ensures JoinRange(ps[lo..hi], 0, n) == JoinRange(ps, lo, lo + n)
    decreases n
  {
    if n > 1 {
      JoinShift(ps, lo, hi, n - 1);
    }
  }

  lemma {:induction false} JoinTokens(ps: seq<string>, lo: nat, hi: nat)
    requires hi <= |ps|
    ensures EstimateTokens(JoinRange(ps, lo, hi)) == SumRange(ps, lo, hi)
    decreases hi
  {
    if lo + 1 == hi {
      assert SumRange(ps, lo, lo) == 0;
    } else if lo < hi {
      JoinTokens(ps, lo, hi - 1);
      EstimateAdditive(JoinRange(ps, lo, hi - 1), ps[hi - 1]);
    }
  }

  lemma {:induction false} SumRangeSplit(ps: seq<string>, lo: nat, mid: nat, hi: nat)
    requires lo <= mid <= hi <= |ps|
    ensures SumRange(ps, lo, hi) == SumRange(ps, lo, mid) + SumRange(ps, mid, hi)
    decreases hi
  {
    if mid < hi {
      SumRangeSplit(ps, lo, mid, hi - 1);
    }
  }

  predicate IsSuffix(a: string, b: string) {
    |a| <= |b| && b[|b| - |a|..] == a
  }

  lemma SuffixExtend(a: string, b: string, c: string)
    requires IsSuffix(a, b)
    ensures IsSuffix(a + c, b + c)
  {
    assert b == b[..|b| - |a|] + a;
    assert b + c == b[..|b| - |a|] + (a + c);
  }

  /** Joining the last paragraphs of a range yields a suffix of the whole joined range. */
  lemma {:induction false} JoinSuffix(ps: seq<string>, lo: nat, k: nat, hi: nat)
    requires lo <= k <= hi <= |ps|
    ensures IsSuffix(JoinRange(ps, k, hi), JoinRange(ps, lo, hi))
    decreases hi
  {
    if lo < k && k + 1 < hi {
      JoinSuffix(ps, lo, k, hi - 1);
      SuffixExtend(JoinRange(ps, k, hi - 1), JoinRange(ps, lo, hi - 1), BREAK);
      SuffixExtend(JoinRange(ps, k, hi - 1) + BREAK, JoinRange(ps, lo, hi - 1) + BREAK, ps[hi - 1]);
    }
  }

  // ---------------------------------------------------------------- white space

  function StripLeft(s: string): string {
    if s != "" && IsSpace(s[0]) then StripLeft(s[1..]) else s
  }

  function StripRight(s: string): string {
    if s != "" && IsSpace(s[|s| - 1]) then StripRight(s[..|s| - 1]) else s
  }

  function Strip(s: string): string {
    StripRight(StripLeft(s))
  }

  predicate IsBlank(s: string) {
    forall i :: 0 <= i < |s| ==> IsSpace(s[i])
  }

  /** The text without its white space. */
  function Ink(s: string): string {
    if s == "" then "" else (if IsSpace(s[0]) then "" else [s[0]]) + Ink(s[1..])
  }

  lemma {:induction false} InkAppend(a: string, b: string)
    ensures Ink(a + b) == Ink(a) + Ink(b)
  {
    if a == "" {
      assert a + b == b;
    } else {
      assert (a + b)[1..] == a[1..] + b;
      InkAppend(a[1..], b);
    }
  }

  lemma {:induction false} InkOfBlank(s: string)
    ensures Ink(s) == "" <==> IsBlank(s)
  {
    if s != "" {
      InkOfBlank(s[1..]);
      if IsBlank(s[1..]) && IsSpace(s[0]) {
        forall i | 0 <= i < |s| ensures IsSpace(s[i]) {
          assert i > 0 ==> s[i] == s[1..][i - 1];
        }
      }
    }
  }

  lemma {:induction false} StripLeftInk(s: string)
    ensures Ink(StripLeft(s)) == Ink(s)
    ensures StripLeft(s) != "" ==> !IsSpace(StripLeft(s)[0])
  {
    if s != "" && IsSpace(s[0]) {
      StripLeftInk(s[1..]);
    }
  }

  lemma {:induction false} StripRightInk(s: string)
    ensures Ink(StripRight(s)) == Ink(s)
    ensures StripRight(s) <= s
    ensures StripRight(s) != "" ==> !IsSpace(StripRight(s)[|StripRight(s)| - 1])
  {
    if s != "" && IsSpace(s[|s| - 1]) {
      var init := s[..|s| - 1];
      assert s == init + [s[|s| - 1]];
      InkAppend(init, [s[|s| - 1]]);
      assert Ink([s[|s| - 1]]) == "";
      StripRightInk(init);
    }
  }

  /** Stripping removes white space at the ends and nothing else. */
  lemma StripInk(s: string)
    ensures Ink(Strip(s)) == Ink(s)
    ensures Strip(s) != "" ==> !IsSpace(Strip(s)[0]) && !IsSpace(Strip(s)[|Strip(s)| - 1])
  {
    StripLeftInk(s);
    StripRightInk(StripLeft(s));
  }

  lemma {:induction false} StripRightIdempotent(s: string)
    ensures StripRight(StripRight(s)) == StripRight(s)
  {
    if s != "" && IsSpace(s[|s| - 1]) {
      StripRightIdempotent(s[..|s| - 1]);
    }
  }

  lemma StripIdempotent(s: string)
    ensures Strip(Strip(s)) == Strip(s)
  {
    var t := Strip(s);
    StripInk(s);
    assert StripLeft(t) == t;
    StripRightIdempotent(StripLeft(s));
  }

  // ---------------------------------------------------------------- splitting into paragraphs

  /** End of the white-space run of s that starts at i. */
  function RunEnd(s: string, i: nat): (e: nat)
    requires i <= |s|
    ensures i <= e <= |s|
    ensures forall k :: i <= k < e ==> IsSpace(s[k])
    decreases |s| - i
  {
    if i < |s| && IsSpace(s[i]) then RunEnd(s, i + 1) else i
  }

  /** One past the last newline of s[lo..hi], or lo when there is none. */
  function AfterLastNewline(s: string, lo: nat, hi: nat): (e: nat)
    requires lo <= hi <= |s|
    ensures lo <= e <= hi
    decreases hi
  {
    if lo == hi then lo
    else if s[hi - 1] == '\n' then hi
    else AfterLastNewline(s, lo, hi - 1)
  }

  /** Where the greedy match of newline, white space, newline at position i ends; i when there is none. */
  function BreakEnd(s: string, i: nat): (e: nat)
    requires i < |s|
    ensures i <= e <= |s|
    ensures forall k :: i <= k < e ==> IsSpace(s[k])
  {
    if s[i] != '\n' then i
    else
      var e := AfterLastNewline(s, i + 1, RunEnd(s, i + 1));
      if e == i + 1 then i else e
  }

  /** Leftmost position at or after i where a paragraph break starts; |s| when there is none. */
  function NextBreak(s: string, i: nat): (b: nat)
    requires i <= |s|
    ensures i <= b <= |s|
    ensures b < |s| ==> BreakEnd(s, b) > b
    decreases |s| - i
  {
    if i == |s| || BreakEnd(s, i) > i then i else NextBreak(s, i + 1)
  }

  /** re.split on a newline, optional white space and a newline. */
  function SplitBreaks(s: string): seq<string>
    decreases |s|
  {
    var b := NextBreak(s, 0);
    if b == |s| then [s] else [s[..b]] + SplitBreaks(s[BreakEnd(s, b)..])
  }

  function StripAll(parts: seq<string>): seq<string> {
    if parts == [] then []
    else
      var head := Strip(parts[0]);
      (if head == "" then [] else [head]) + StripAll(parts[1..])
  }

  function Paragraphs(markdown: string): seq<string> {
    StripAll(SplitBreaks(markdown))
  }

  function Concat(parts: seq<string>): string {
    if parts == [] then "" else parts[0] + Concat(parts[1..])
  }

  /** Cutting a blank stretch out of the middle of a text keeps its ink. */
  lemma CutInk(a: string, blank: string, b: string)
    requires IsBlank(blank)
    ensures Ink(a + blank + b) == Ink(a) + Ink(b)
  {
    InkOfBlank(blank);
    InkAppend(a, blank);
    InkAppend(a + blank, b);
  }

  lemma ConcatCons(head: string, rest: seq<string>)
    ensures Concat([head] + rest) == head + Concat(rest)
  {
    assert ([head] + rest)[1..] == rest;
  }

  lemma {:induction false} ConcatSnoc(parts: seq<string>, last: string)
    ensures Concat(parts + [last]) == Concat(parts) + last
  {
    if parts == [] {
      assert [] + [last] == [last];
      ConcatOne(last);
      assert "" + last == last;
    } else {
      ConcatSnoc(parts[1..], last);
      assert (parts + [last])[1..] == parts[1..] + [last];
      assert (parts[0] + Concat(parts[1..])) + last == parts[0] + (Concat(parts[1..]) + last);
    }
  }

  lemma ConcatOne(s: string)
    ensures Concat([s]) == s
  {
    ConcatCons(s, []);
    assert [s] + [] == [s];
    assert s + "" == s;
  }

  lemma Recompose(s: string, b: nat, e: nat)
    requires b <= e <= |s|
    ensures s[..b] + s[b..e] + s[e..] == s
  {
  }

  lemma SplitOnceInk(s: string, b: nat, e: nat, rest: seq<string>)
    requires b <= e <= |s| && IsBlank(s[b..e]) && Ink(Concat(rest)) == Ink(s[e..])
    ensures Ink(Concat([s[..b]] + rest)) == Ink(s)
  {
    ConcatCons(s[..b], rest);
    InkAppend(s[..b], Concat(rest));
    CutInk(s[..b], s[b..e], s[e..]);
    Recompose(s, b, e);
  }

  lemma {:induction false} SplitBreaksInk(s: string)
    ensures Ink(Concat(SplitBreaks(s))) == Ink(s)
    decreases |s|
  {
    var b := NextBreak(s, 0);
    if b == |s| {
      ConcatOne(s);
    } else {
      var e := BreakEnd(s, b);
      SplitBreaksInk(s[e..]);
      SplitOnceInk(s, b, e, SplitBreaks(s[e..]));
    }
  }

  lemma {:induction false} StripAllInk(parts: seq<string>)
    ensures Ink(Concat(StripAll(parts))) == Ink(Concat(parts))
  {
    if parts != [] {
      var head, rest := Strip(parts[0]), StripAll(parts[1..]);
      StripInk(parts[0]);
      StripAllInk(parts[1..]);
      InkAppend(parts[0], Concat(parts[1..]));
      if head == "" {
        assert StripAll(parts) == rest;
      } else {
        assert ([head] + rest)[1..] == rest;
        InkAppend(head, Concat(rest));
      }
    }
  }

  lemma {:induction false} ConcatRangeCons(ps: seq<string>, lo: nat, hi: nat)
    requires lo < hi <= |ps|
    ensures ConcatRange(ps, lo, hi) == ps[lo] + ConcatRange(ps, lo + 1, hi)
    decreases hi
  {
    if lo + 1 < hi {
      ConcatRangeCons(ps, lo, hi - 1);
    }
  }

  lemma {:induction false} ConcatRangeIsConcat(ps: seq<string>, lo: nat)
    requires lo <= |ps|
    ensures ConcatRange(ps, lo, |ps|) == Concat(ps[lo..])
    decreases |ps| - lo
  {
    if lo < |ps| {
      ConcatRangeIsConcat(ps, lo + 1);
      ConcatRangeCons(ps, lo, |ps|);
      assert ps[lo..] == [ps[lo]] + ps[lo + 1..];
      ConcatCons(ps[lo], ps[lo + 1..]);
    }
  }

  predicate IsParagraph(p: string) {
    p != "" && !IsSpace(p[0]) && !IsSpace(p[|p| - 1])
  }

  lemma {:induction false} StripAllParagraphs(parts: seq<string>)
    ensures forall p :: p in StripAll(parts) ==> IsParagraph(p)
  {
    if parts != [] {
      StripInk(parts[0]);
      StripAllParagraphs(parts[1..]);
    }
  }

  /** Splitting a document into paragraphs loses white space only, and every paragraph is trimmed text. */
  lemma ParagraphsKeepInk(markdown: string)
    ensures Ink(ConcatRange(Paragraphs(markdown), 0, |Paragraphs(markdown)|)) == Ink(markdown)
    ensures forall p :: p in Paragraphs(markdown) ==> IsParagraph(p)
  {
    SplitBreaksInk(markdown);
    StripAllInk(SplitBreaks(markdown));
    StripAllParagraphs(SplitBreaks(markdown));
    ConcatRangeIsConcat(Paragraphs(markdown), 0);
  }
}
