/**
 * Single-line data: frames (section 9.2 of the WHATWG HTML standard), as the services write them and as the
 * browser puts them together again from network reads of any size.
 */
module LineFraming {
  import opened Options
  import T = Text

  // ---------------------------------------------------------------- trimming

  /** What String.prototype.trim removes. */
  predicate JsSpace(c: char) {
    || '\t' <= c <= '\r' || c == ' ' || c == '\U{a0}' || c == '\U{1680}' || '\U{2000}' <= c <= '\U{200a}'
    || c == '\U{2028}' || c == '\U{2029}' || c == '\U{202f}' || c == '\U{205f}' || c == '\U{3000}' || c == '\U{feff}'
  }

  /** What strings.TrimSpace of Go removes. */
  predicate GoSpace(c: char) {
    || '\t' <= c <= '\r' || c == ' ' || c == '\U{85}' || c == '\U{a0}' || c == '\U{1680}'
    || '\U{2000}' <= c <= '\U{200a}' || c == '\U{2028}' || c == '\U{2029}' || c == '\U{202f}'
    || c == '\U{205f}' || c == '\U{3000}'
  }

  /**
   * White space of the three languages: Python also strips the separators U+001C to U+001F, and the browser
   * keeps the next-line character but takes a byte-order mark.
   */
  lemma SpacesDiffer(c: char)
    ensures T.IsSpace(c) <==> GoSpace(c) || 0x1c <= c as int <= 0x1f
    ensures JsSpace(c) <==> (GoSpace(c) && c as int != 0x85) || c as int == 0xfeff
  {
  }

  function TrimStart(space: char -> bool, s: string): string {
    if s != "" && space(s[0]) then TrimStart(space, s[1..]) else s
  }

  function TrimEnd(space: char -> bool, s: string): string {
    if s != "" && space(s[|s| - 1]) then TrimEnd(space, s[..|s| - 1]) else s
  }

  function Trim(space: char -> bool, s: string): string {
    TrimEnd(space, TrimStart(space, s))
  }

  /** Text that trimming leaves alone. */
  predicate Tight(space: char -> bool, s: string) {
    s != "" && !space(s[0]) && !space(s[|s| - 1])
  }

  const PREFIX: string := "data:"

  /** The payload of a line; none when the line is not a data line. */
  function PayloadOf(space: char -> bool, line: string): Option<string> {
    var trimmed := Trim(space, line);
    if PREFIX <= trimmed then Some(Trim(space, trimmed[5..])) else None
  }

  // ---------------------------------------------------------------- which lines carry data

  predicate AllSpace(space: char -> bool, s: string) {
    forall i :: 0 <= i < |s| ==> space(s[i])
  }

  lemma {:induction false} TrimStartCuts(space: char -> bool, s: string) returns (a: nat)
    ensures a <= |s| && AllSpace(space, s[..a]) && TrimStart(space, s) == s[a..]
    ensures TrimStart(space, s) != "" ==> !space(TrimStart(space, s)[0])
  {
    a := 0;
    if s != "" && space(s[0]) {
      var b := TrimStartCuts(space, s[1..]);
      a := b + 1;
      assert s[..a] == [s[0]] + s[1..][..b];
    }
  }

  lemma {:induction false} TrimEndCuts(space: char -> bool, s: string) returns (b: nat)
    ensures b <= |s| && AllSpace(space, s[b..]) && TrimEnd(space, s) == s[..b]
    ensures TrimEnd(space, s) != "" ==> !space(TrimEnd(space, s)[|TrimEnd(space, s)| - 1])
  {
    b := |s|;
    if s != "" && space(s[|s| - 1]) {
      var init := s[..|s| - 1];
      b := TrimEndCuts(space, init);
      assert s[b..] == init[b..] + [s[|s| - 1]];
    }
  }

  /** Trimming leaves the stretch between the white space at the two ends. */
  lemma {:induction false} TrimCuts(space: char -> bool, s: string) returns (before: string, after: string)
    ensures s == before + Trim(space, s) + after && AllSpace(space, before) && AllSpace(space, after)
    ensures Trim(space, s) == "" || Tight(space, Trim(space, s))
  {
    var a := TrimStartCuts(space, s);
    var b := TrimEndCuts(space, s[a..]);
    before, after := s[..a], s[a..][b..];
    assert s == s[..a] + s[a..];
    if Trim(space, s) != "" {
      assert Trim(space, s)[0] == s[a..][0];
    }
  }

  lemma {:induction false} TrimStartDrops(space: char -> bool, a: string, b: string)
    requires AllSpace(space, a)
    ensures TrimStart(space, a + b) == TrimStart(space, b)
  {
    if a == "" {
      assert a + b == b;
    } else {
      assert (a + b)[1..] == a[1..] + b;
      TrimStartDrops(space, a[1..], b);
    }
  }

  lemma {:induction false} TrimEndKeeps(space: char -> bool, a: string, b: string)
    requires a != "" && !space(a[|a| - 1])
    ensures TrimEnd(space, a + b) == a + TrimEnd(space, b)
  {
    if b == "" {
      assert a + b == a && a + "" == a;
    } else {
      assert (a + b)[..|a + b| - 1] == a + b[..|b| - 1];
      TrimEndKeeps(space, a, b[..|b| - 1]);
    }
  }

  lemma {:induction false} TrimEndDrops(space: char -> bool, a: string, b: string)
    requires AllSpace(space, b)
    ensures TrimEnd(space, a + b) == TrimEnd(space, a)
  {
    if b == "" {
      assert a + b == a;
    } else {
      assert (a + b)[..|a + b| - 1] == a + b[..|b| - 1];
      TrimEndDrops(space, a, b[..|b| - 1]);
    }
  }

  lemma {:induction false} TrimStartOfPrefix(space: char -> bool, a: string, b: string)
    ensures TrimStart(space, a + b) == if AllSpace(space, a) then TrimStart(space, b) else TrimStart(space, a) + b
  {
    if AllSpace(space, a) {
      TrimStartDrops(space, a, b);
    } else if space(a[0]) {
      assert (a + b)[1..] == a[1..] + b;
      assert !AllSpace(space, a[1..]) by {
        var i :| 0 <= i < |a| && !space(a[i]);
        assert a[1..][i - 1] == a[i];
      }
      TrimStartOfPrefix(space, a[1..], b);
    }
  }

  lemma {:induction false} AllTrimmed(space: char -> bool, s: string)
    requires AllSpace(space, s)
    ensures TrimStart(space, s) == "" && TrimEnd(space, s) == ""
  {
    assert s + "" == s && "" + s == s;
    TrimStartDrops(space, s, "");
    TrimEndDrops(space, "", s);
  }

  /** Trimming what is trimmed at the end already takes the same. */
  lemma {:induction false} TrimAfterEnd(space: char -> bool, s: string)
    ensures Trim(space, TrimEnd(space, s)) == Trim(space, s)
  {
    hide TrimStart, TrimEnd;
    var b := TrimEndCuts(space, s);
    var core, blank := s[..b], s[b..];
    assert s == core + blank;
    TrimStartOfPrefix(space, core, blank);
    if AllSpace(space, core) {
      AllTrimmed(space, core);
      AllTrimmed(space, blank);
      AllTrimmed(space, "");
    } else {
      TrimEndDrops(space, TrimStart(space, core), blank);
    }
  }

  /** A line that begins with data:, but for white space, carries what follows, trimmed. */
  lemma {:induction false} DataLinesAreRead(space: char -> bool, before: string, rest: string)
    requires AllSpace(space, before) && !space('d') && !space(':')
    ensures PayloadOf(space, before + ("data:" + rest)) == Some(Trim(space, rest))
  {
    hide TrimStart, TrimEnd;
    var body := "data:" + rest;
    TrimStartDrops(space, before, body);
    FirstStays(space, body);
    TrimEndKeeps(space, "data:", rest);
    assert ("data:" + TrimEnd(space, rest))[5..] == TrimEnd(space, rest);
    TrimAfterEnd(space, rest);
  }

  lemma FirstStays(space: char -> bool, s: string)
    requires s != "" && !space(s[0])
    ensures TrimStart(space, s) == s
  {
  }

  /** No other line carries anything. */
  lemma {:induction false} OtherLinesAreNot(space: char -> bool, line: string) returns (before: string, rest: string)
    requires PayloadOf(space, line).Some?
    ensures AllSpace(space, before) && line == before + ("data:" + rest)
  {
    hide TrimStart, TrimEnd;
    var after;
    before, after := TrimCuts(space, line);
    var trimmed := Trim(space, line);
    rest := trimmed[5..] + after;
    assert trimmed == "data:" + trimmed[5..];
    assert before + trimmed + after == before + ("data:" + rest);
  }

  // ---------------------------------------------------------------- lines

  /** split("\n"): the pieces between newlines, the last one after the last newline. */
  function Split(s: string): (lines: seq<string>)
    ensures |lines| >= 1
  {
    if s == "" then [""]
    else
      var init, c := Split(s[..|s| - 1]), s[|s| - 1];
      if c == '\n' then init + [""] else init[..|init| - 1] + [init[|init| - 1] + [c]]
  }

  function JoinLines(lines: seq<string>): string
    requires lines != []
  {
    if |lines| == 1 then lines[0] else JoinLines(lines[..|lines| - 1]) + "\n" + lines[|lines| - 1]
  }

  lemma JoinSnoc(lines: seq<string>, line: string)
    requires lines != []
    ensures JoinLines(lines + [line]) == JoinLines(lines) + "\n" + line
  {
    assert (lines + [line])[..|lines|] == lines;
  }

  lemma AppendChar(a: string, b: string, c: char)
    ensures a + (b + [c]) == (a + b) + [c]
  {
  }

  lemma JoinGrow(lines: seq<string>, c: char)
    requires lines != []
    ensures JoinLines(lines[..|lines| - 1] + [lines[|lines| - 1] + [c]]) == JoinLines(lines) + [c]
  {
    var init, last := lines[..|lines| - 1], lines[|lines| - 1];
    if init != [] {
      JoinSnoc(init, last + [c]);
      AppendChar(JoinLines(init) + "\n", last, c);
    } else {
      assert init + [last + [c]] == [last + [c]];
    }
  }

  /** Splitting loses nothing, and no piece contains a newline. */
  lemma {:induction false} SplitIsExact(s: string)
    ensures JoinLines(Split(s)) == s
    ensures forall i :: 0 <= i < |Split(s)| ==> '\n' !in Split(s)[i]
  {
    if s != "" {
      var init, c := s[..|s| - 1], s[|s| - 1];
      SplitIsExact(init);
      assert s == init + [c];
      if c == '\n' {
        JoinSnoc(Split(init), "");
      } else {
        JoinGrow(Split(init), c);
      }
    }
  }

  function Last(lines: seq<string>): string
    requires lines != []
  {
    lines[|lines| - 1]
  }

  function Complete(lines: seq<string>): seq<string>
    requires lines != []
  {
    lines[..|lines| - 1]
  }

  lemma SplitSnoc(s: string, c: char)
    ensures Split(s + [c]) ==
            if c == '\n' then Split(s) + [""] else Complete(Split(s)) + [Last(Split(s)) + [c]]
  {
    assert (s + [c])[..|s|] == s;
  }

  lemma CompleteAppend(first: seq<string>, lines: seq<string>, c: char)
    requires lines != []
    ensures (first + lines) + [""] == first + (lines + [""])
    ensures Complete(first + lines) + [Last(first + lines) + [c]] == first + (Complete(lines) + [Last(lines) + [c]])
  {
  }

  /** Only the unfinished last piece matters for what follows. */
  lemma {:induction false} SplitAppend(a: string, b: string)
    ensures Split(a + b) == Complete(Split(a)) + Split(Last(Split(a)) + b)
    decreases |b|
  {
    var rest := Last(Split(a));
    if b == "" {
      assert a + b == a && rest + b == rest;
      SplitLast(a);
    } else {
      var init, c := b[..|b| - 1], b[|b| - 1];
      SplitAppend(a, init);
      assert b == init + [c];
      AppendChar(a, init, c);
      AppendChar(rest, init, c);
      SplitSnoc(a + init, c);
      SplitSnoc(rest + init, c);
      CompleteAppend(Complete(Split(a)), Split(rest + init), c);
    }
  }

  lemma {:induction false} SplitLine(line: string)
    requires '\n' !in line
    ensures Split(line) == [line]
  {
    if line != "" {
      SplitLine(line[..|line| - 1]);
      assert line == line[..|line| - 1] + [line[|line| - 1]];
    }
  }

  lemma SplitLast(s: string)
    ensures Split(Last(Split(s))) == [Last(Split(s))]
  {
    SplitIsExact(s);
    SplitLine(Last(Split(s)));
  }

  /** The payloads of the data lines among some lines. */
  function Payloads(space: char -> bool, lines: seq<string>): seq<string> {
    if lines == [] then []
    else
      var before := Payloads(space, lines[..|lines| - 1]);
      match PayloadOf(space, lines[|lines| - 1])
      case None => before
      case Some(payload) => before + [payload]
  }

  lemma {:induction false} PayloadsAppend(space: char -> bool, a: seq<string>, b: seq<string>)
    ensures Payloads(space, a + b) == Payloads(space, a) + Payloads(space, b)
    decreases |b|
  {
    if b == [] {
      assert a + b == a;
    } else {
      assert (a + b)[..|a + b| - 1] == a + b[..|b| - 1];
      PayloadsAppend(space, a, b[..|b| - 1]);
    }
  }

  lemma PayloadsOne(space: char -> bool, line: string)
    ensures Payloads(space, [line]) == match PayloadOf(space, line) case None => [] case Some(p) => [p]
  {
    assert [line][..0] == [];
  }

  lemma NoPayload(space: char -> bool)
    ensures Payloads(space, [""]) == []
  {
    PayloadsOne(space, "");
  }

  /** What the whole text delivers when it is split at once. */
  function Deliver(text: string): seq<string> {
    Payloads(JsSpace, Split(text))
  }

  // ---------------------------------------------------------------- the browser

  lemma NothingRead()
    ensures Last(Split(T.Concat([]))) == "" && Payloads(JsSpace, Complete(Split(T.Concat([])))) == []
  {
  }

  /**
   * Reads the decoded stream piece by piece, keeps the unfinished line, and delivers the payload of every
   * data line: the same payloads as the whole text at once, wherever the pieces were cut.
   */
  method StreamPost(pieces: seq<string>) returns (delivered: seq<string>)
    ensures delivered == Deliver(T.Concat(pieces))
  {
    hide Split, Payloads;
    delivered := [];
    var buffer := "";
    NothingRead();
    assert pieces[..0] == [];
    for i := 0 to |pieces|
      invariant delivered == Payloads(JsSpace, Complete(Split(T.Concat(pieces[..i]))))
      invariant buffer == Last(Split(T.Concat(pieces[..i])))
    {
      ghost var before := T.Concat(pieces[..i]);
      T.ConcatSnoc(pieces[..i], pieces[i]);
      assert pieces[..i + 1] == pieces[..i] + [pieces[i]];
      ReadStep(before, pieces[i]);
      buffer := buffer + pieces[i];
      var lines := Split(buffer);
      buffer := lines[|lines| - 1];
      var more := DeliverLines(lines[..|lines| - 1]);
      delivered := delivered + more;
    }
    assert pieces[..|pieces|] == pieces;
    var trailing := Trim(JsSpace, buffer);
    if PREFIX <= trailing {
      delivered := delivered + [Trim(JsSpace, trailing[5..])];
    }
    ghost var all := Split(T.Concat(pieces));
    assert all == Complete(all) + [Last(all)];
    PayloadsAppend(JsSpace, Complete(all), [Last(all)]);
    PayloadsOne(JsSpace, Last(all));
  }

  lemma ReadStep(before: string, read: string)
    ensures var lines := Split(Last(Split(before)) + read);
            && Last(Split(before + read)) == Last(lines)
            && Payloads(JsSpace, Complete(Split(before + read))) ==
               Payloads(JsSpace, Complete(Split(before))) + Payloads(JsSpace, Complete(lines))
  {
    var lines := Split(Last(Split(before)) + read);
    SplitAppend(before, read);
    assert Complete(Split(before + read)) == Complete(Split(before)) + Complete(lines);
    PayloadsAppend(JsSpace, Complete(Split(before)), Complete(lines));
  }

  method DeliverLines(lines: seq<string>) returns (delivered: seq<string>)
    ensures delivered == Payloads(JsSpace, lines)
  {
    delivered := [];
    for i := 0 to |lines|
      invariant delivered == Payloads(JsSpace, lines[..i])
    {
      assert lines[..i + 1][..i] == lines[..i];
      var trimmed := Trim(JsSpace, lines[i]);
      if PREFIX <= trimmed {
        delivered := delivered + [Trim(JsSpace, trimmed[5..])];
      }
    }
    assert lines[..|lines|] == lines;
  }

  // ---------------------------------------------------------------- the writers

  function FrameOf(payload: string): string {
    "data: " + payload + "\n\n"
  }

  function Encode(payloads: seq<string>): string {
    if payloads == [] then "" else Encode(payloads[..|payloads| - 1]) + FrameOf(payloads[|payloads| - 1])
  }

  /** Payloads as JSON encoding makes them: not blank at either end, and on one line. */
  predicate OneLine(space: char -> bool, payload: string) {
    Tight(space, payload) && '\n' !in payload
  }

  lemma {:induction false} TightIsTrimmed(space: char -> bool, s: string)
    requires Tight(space, s)
    ensures Trim(space, s) == s
  {
  }

  /** A data line carries its payload. */
  lemma DataLine(space: char -> bool, payload: string)
    requires Tight(space, payload) && space(' ') && !space('d')
    ensures PayloadOf(space, "data: " + payload) == Some(payload)
  {
    var line := "data: " + payload;
    assert line[0] == 'd' && line[|line| - 1] == payload[|payload| - 1];
    TightIsTrimmed(space, line);
    assert line[..5] == PREFIX;
    assert line[5..] == " " + payload;
    assert (" " + payload)[1..] == payload;
    TightIsTrimmed(space, payload);
    assert TrimStart(space, " " + payload) == payload;
  }

  lemma FrameSplits(payload: string)
    requires '\n' !in payload
    ensures Split(FrameOf(payload)) == ["data: " + payload, "", ""]
  {
    var line := "data: " + payload;
    SplitLine(line);
    SplitSnoc(line, '\n');
    SplitSnoc(line + "\n", '\n');
    assert line + "\n" + "\n" == FrameOf(payload);
  }

  lemma FrameLinesAppended(before: string, payload: string)
    requires Last(Split(before)) == "" && '\n' !in payload
    ensures Last(Split(before + FrameOf(payload))) == ""
    ensures Complete(Split(before + FrameOf(payload))) == Complete(Split(before)) + ["data: " + payload, ""]
  {
    hide Split;
    SplitAppend(before, FrameOf(payload));
    assert "" + FrameOf(payload) == FrameOf(payload);
    FrameSplits(payload);
  }

  /** One more frame after complete lines. */
  lemma FrameAppended(space: char -> bool, before: string, payload: string)
    requires OneLine(space, payload) && space(' ') && !space('d')
    requires Last(Split(before)) == ""
    ensures Last(Split(before + FrameOf(payload))) == ""
    ensures Payloads(space, Complete(Split(before + FrameOf(payload)))) ==
            Payloads(space, Complete(Split(before))) + [payload]
  {
    hide Split, Payloads;
    FrameLinesAppended(before, payload);
    PayloadsAppend(space, Complete(Split(before)), ["data: " + payload, ""]);
    FramePayload(space, payload);
  }

  /** Writing frames and splitting the text again gives the payloads back. */
  lemma {:induction false} EncodedLines(space: char -> bool, payloads: seq<string>)
    requires space(' ') && !space('d') && forall p :: p in payloads ==> OneLine(space, p)
    ensures Last(Split(Encode(payloads))) == ""
    ensures Payloads(space, Complete(Split(Encode(payloads)))) == payloads
  {
    if payloads == [] {
      assert Complete(Split("")) == [];
    } else {
      var init, last := payloads[..|payloads| - 1], payloads[|payloads| - 1];
      var text := Encode(init);
      EncodedLines(space, init);
      FrameAppended(space, text, last);
      assert Encode(payloads) == text + FrameOf(last);
      assert init + [last] == payloads;
    }
  }

  lemma FramePayload(space: char -> bool, payload: string)
    requires Tight(space, payload) && space(' ') && !space('d')
    ensures Payloads(space, ["data: " + payload, ""]) == [payload]
  {
    var line := "data: " + payload;
    DataLine(space, payload);
    PayloadsOne(space, line);
    NoPayload(space);
    assert [line, ""] == [line] + [""];
    PayloadsAppend(space, [line], [""]);
  }

  /** However the network cuts the frames, the browser delivers exactly the payloads that were written. */
  lemma FramesRoundTrip(payloads: seq<string>, pieces: seq<string>)
    requires forall p :: p in payloads ==> OneLine(JsSpace, p)
    requires T.Concat(pieces) == Encode(payloads)
    ensures Deliver(T.Concat(pieces)) == payloads
  {
    EncodedLines(JsSpace, payloads);
    var lines := Split(Encode(payloads));
    assert lines == Complete(lines) + [""];
    PayloadsAppend(JsSpace, Complete(lines), [""]);
    NoPayload(JsSpace);
  }

  lemma LineAppended(space: char -> bool, before: string, line: string)
    requires Last(Split(before)) == "" && '\n' !in line
    ensures Split(before + line) == Complete(Split(before)) + [line]
  {
    SplitAppend(before, line);
    assert "" + line == line;
    SplitLine(line);
  }

  /** A last frame without its newlines is delivered too. */
  lemma UnfinishedFrameIsDelivered(payloads: seq<string>, last: string)
    requires OneLine(JsSpace, last) && forall p :: p in payloads ==> OneLine(JsSpace, p)
    ensures Deliver(Encode(payloads) + ("data: " + last)) == payloads + [last]
  {
    var line := "data: " + last;
    EncodedLines(JsSpace, payloads);
    LineAppended(JsSpace, Encode(payloads), line);
    PayloadsAppend(JsSpace, Complete(Split(Encode(payloads))), [line]);
    DataLine(JsSpace, last);
    PayloadsOne(JsSpace, line);
  }
}
