/**
 * The way of an answer: the Agent cuts it into tokens and frames, the Backend relays and saves it, the
 * browser puts it together again.
 */
module AnswerStream {
  import opened Basics
  import opened Options
  import T = Text
  import opened LineFraming

  // ---------------------------------------------------------------- the Agent's tokens

  function RunLength(member: char -> bool, s: string): (n: nat)
    ensures n <= |s|
    ensures forall i :: 0 <= i < n ==> member(s[i])
  {
    if s == "" || !member(s[0]) then 0 else 1 + RunLength(member, s[1..])
  }

  /** Length of the first match: a CJK character, a run of letters and digits, a run of spaces, or a character. */
  function PartLength(s: string): (n: nat)
    requires s != ""
    ensures 1 <= n <= |s|
  {
    if T.IsCjk(s[0]) then 1
    else if T.IsAlnum(s[0]) then RunLength(T.IsAlnum, s)
    else if T.IsSpace(s[0]) then RunLength(T.IsSpace, s)
    else 1
  }

  function Parts(s: string): seq<string> {
    if s == "" then [] else [s[..PartLength(s)]] + Parts(s[PartLength(s)..])
  }

  /** The tokens given out so far, and the CJK characters held back. */
  datatype Buffer = Buffer(tokens: seq<string>, held: string)

  function FeedOne(b: Buffer, part: string): Buffer {
    if part != "" && T.IsCjk(part[0])
    then
      if |b.held + part| >= 3 then Buffer(b.tokens + [b.held + part], "") else Buffer(b.tokens, b.held + part)
    else if b.held != "" then Buffer(b.tokens + [b.held] + [part], "")
    else Buffer(b.tokens + [part], "")
  }

  function Feed(parts: seq<string>): Buffer {
    if parts == [] then Buffer([], "") else FeedOne(Feed(parts[..|parts| - 1]), parts[|parts| - 1])
  }

  function Tokens(text: string): seq<string> {
    var b := Feed(Parts(text));
    if b.held != "" then b.tokens + [b.held] else b.tokens
  }

  method Tokenize(text: string) returns (tokens: seq<string>)
    ensures tokens == Tokens(text)
  {
    var parts := Parts(text);
    tokens := [];
    var buf := "";
    for i := 0 to |parts|
      invariant Buffer(tokens, buf) == Feed(parts[..i])
    {
      assert parts[..i + 1][..i] == parts[..i];
      var p := parts[i];
      if p != "" && T.IsCjk(p[0]) {
        buf := buf + p;
        if |buf| >= 3 {
          tokens := tokens + [buf];
          buf := "";
        }
      } else {
        if buf != "" {
          tokens := tokens + [buf];
          buf := "";
        }
        tokens := tokens + [p];
      }
    }
    assert parts[..|parts|] == parts;
    if buf != "" {
      tokens := tokens + [buf];
    }
  }

  lemma {:induction false} PartsConcat(s: string)
    ensures T.Concat(Parts(s)) == s && NoneEmpty(Parts(s))
  {
    if s != "" {
      var n := PartLength(s);
      PartsConcat(s[n..]);
      T.ConcatCons(s[..n], Parts(s[n..]));
      assert s == s[..n] + s[n..];
    }
  }

  predicate NoneEmpty(pieces: seq<string>) {
    forall i :: 0 <= i < |pieces| ==> pieces[i] != ""
  }

  lemma FeedOneLossless(b: Buffer, part: string)
    requires part != "" && NoneEmpty(b.tokens)
    ensures T.Concat(FeedOne(b, part).tokens) + FeedOne(b, part).held == (T.Concat(b.tokens) + b.held) + part
    ensures NoneEmpty(FeedOne(b, part).tokens)
  {
    if T.IsCjk(part[0]) {
      AppendAssociative(T.Concat(b.tokens), b.held, part);
      T.ConcatSnoc(b.tokens, b.held + part);
    } else if b.held != "" {
      T.ConcatSnoc(b.tokens, b.held);
      T.ConcatSnoc(b.tokens + [b.held], part);
    } else {
      T.ConcatSnoc(b.tokens, part);
    }
    Unit(T.Concat(FeedOne(b, part).tokens));
    Unit(T.Concat(b.tokens));
  }

  lemma Unit(a: string)
    ensures a + "" == a
  {
  }

  lemma {:induction false} FeedLossless(parts: seq<string>)
    requires NoneEmpty(parts)
    ensures T.Concat(Feed(parts).tokens) + Feed(parts).held == T.Concat(parts) && NoneEmpty(Feed(parts).tokens)
  {
    if parts != [] {
      var init, part := parts[..|parts| - 1], parts[|parts| - 1];
      FeedLossless(init);
      FeedOneLossless(Feed(init), part);
      T.ConcatSnoc(init, part);
      assert parts == init + [part];
    }
  }

  /** Tokenising loses nothing and gives out no empty token. */
  lemma TokensLossless(text: string)
    ensures T.Concat(Tokens(text)) == text && NoneEmpty(Tokens(text))
  {
    PartsConcat(text);
    FeedLossless(Parts(text));
    var b := Feed(Parts(text));
    T.ConcatSnoc(b.tokens, b.held);
  }

  /** A part that starts with a CJK character is that character. */
  lemma {:induction false} CjkPartsAreSingle(s: string)
    ensures forall i :: 0 <= i < |Parts(s)| && Parts(s)[i] != "" && T.IsCjk(Parts(s)[i][0]) ==> |Parts(s)[i]| == 1
  {
    if s != "" {
      CjkPartsAreSingle(s[PartLength(s)..]);
    }
  }

  predicate Grouped(tokens: seq<string>) {
    forall i :: 0 <= i < |tokens| && tokens[i] != "" && T.IsCjk(tokens[i][0]) ==> |tokens[i]| <= 3
  }

  lemma {:induction false} FeedGroups(parts: seq<string>)
    requires forall i :: 0 <= i < |parts| && parts[i] != "" && T.IsCjk(parts[i][0]) ==> |parts[i]| == 1
    ensures Grouped(Feed(parts).tokens) && |Feed(parts).held| <= 2
  {
    if parts != [] {
      FeedGroups(parts[..|parts| - 1]);
    }
  }

  /** CJK characters come in groups of at most three. */
  lemma TokensAreGrouped(text: string)
    ensures Grouped(Tokens(text))
  {
    CjkPartsAreSingle(text);
    FeedGroups(Parts(text));
  }

  // ---------------------------------------------------------------- tokens are as long as they may be

  /** One to three CJK characters, or a run of letters and digits, or a run of white space, or a single character. */
  predicate OfOneClass(t: string) {
    t != "" &&
    if T.IsCjk(t[0]) then |t| <= 3 && forall i :: 0 <= i < |t| ==> T.IsCjk(t[i])
    else if T.IsAlnum(t[0]) then forall i :: 0 <= i < |t| ==> T.IsAlnum(t[i])
    else if T.IsSpace(t[0]) then forall i :: 0 <= i < |t| ==> T.IsSpace(t[i])
    else |t| == 1
  }

  /** The second token could not have been joined to the first. */
  predicate Apart(t: string, u: string)
    requires t != "" && u != ""
  {
    if T.IsCjk(t[0]) then |t| == 3 || !T.IsCjk(u[0])
    else if T.IsAlnum(t[0]) then !T.IsAlnum(u[0])
    else T.IsSpace(t[0]) ==> !T.IsSpace(u[0])
  }

  /** Tokens of one class each, no two in a row of which belong together. */
  ghost predicate Maximal(tokens: seq<string>) {
    && (forall i :: 0 <= i < |tokens| ==> OfOneClass(tokens[i]))
    && forall i :: 0 <= i < |tokens| - 1 ==> Apart(tokens[i], tokens[i + 1])
  }

  /** A single CJK character is a part of its own. */
  predicate PartsApart(p: string, q: string)
    requires p != "" && q != ""
  {
    if T.IsCjk(p[0]) then |p| == 1
    else if T.IsAlnum(p[0]) then !T.IsAlnum(q[0])
    else T.IsSpace(p[0]) ==> !T.IsSpace(q[0])
  }

  ghost predicate MaximalParts(parts: seq<string>) {
    && (forall i :: 0 <= i < |parts| ==>
          OfOneClass(parts[i]) && (T.IsCjk(parts[i][0]) ==> |parts[i]| == 1))
    && forall i :: 0 <= i < |parts| - 1 ==> PartsApart(parts[i], parts[i + 1])
  }

  lemma {:induction false} RunIsMaximal(member: char -> bool, s: string)
    ensures RunLength(member, s) < |s| ==> !member(s[RunLength(member, s)])
  {
    if s != "" && member(s[0]) {
      RunIsMaximal(member, s[1..]);
    }
  }

  lemma FirstPart(s: string)
    requires s != ""
    ensures var p := s[..PartLength(s)];
            && OfOneClass(p) && (T.IsCjk(p[0]) ==> |p| == 1)
            && (PartLength(s) < |s| ==> PartsApart(p, s[PartLength(s)..]))
  {
    RunIsMaximal(T.IsAlnum, s);
    RunIsMaximal(T.IsSpace, s);
  }

  lemma {:induction false} PartsAreMaximal(s: string)
    ensures MaximalParts(Parts(s))
    ensures s != "" ==> Parts(s) != [] && Parts(s)[0] != "" && Parts(s)[0][0] == s[0]
  {
    if s != "" {
      hide PartLength, OfOneClass, PartsApart;
      var n := PartLength(s);
      FirstPart(s);
      PartsAreMaximal(s[n..]);
      PartsConcat(s);
      PartsOf(s);
      PartsApartFirst(s[..n], s[n..], Parts(s[n..]));
    }
  }

  lemma PartsOf(s: string)
    requires s != ""
    ensures PartLength(s) <= |s| && Parts(s) == [s[..PartLength(s)]] + Parts(s[PartLength(s)..])
    ensures PartLength(s) >= 1
  {
  }

  /** Only the first character of what follows matters. */
  lemma PartsApartFirst(p: string, rest: string, parts: seq<string>)
    requires p != "" && (rest != "" ==> PartsApart(p, rest))
    requires rest != "" ==> parts != [] && parts[0] != "" && parts[0][0] == rest[0]
    requires rest == "" ==> parts == []
    ensures parts != [] ==> parts[0] != "" && PartsApart(p, parts[0])
  {
  }

  /** What has been given out is maximal, and what is held back is less than a group of CJK characters. */
  ghost predicate Feeding(b: Buffer, last: string) {
    && Maximal(b.tokens) && |b.held| <= 2 && (forall i :: 0 <= i < |b.held| ==> T.IsCjk(b.held[i]))
    && (b.held != "" ==> b.tokens == [] || !T.IsCjk(b.tokens[|b.tokens| - 1][0]) || |b.tokens[|b.tokens| - 1]| == 3)
    && (b.held == "" && b.tokens != [] && !T.IsCjk(b.tokens[|b.tokens| - 1][0]) ==> b.tokens[|b.tokens| - 1] == last)
    && (b.held == "" && b.tokens != [] && T.IsCjk(b.tokens[|b.tokens| - 1][0]) ==> |b.tokens[|b.tokens| - 1]| == 3)
  }

  lemma MaximalSnoc(tokens: seq<string>, t: string)
    requires Maximal(tokens) && OfOneClass(t) && (tokens != [] ==> Apart(tokens[|tokens| - 1], t))
    ensures Maximal(tokens + [t])
  {
  }

  lemma {:induction false} FeedOneMaximal(b: Buffer, last: string, part: string)
    requires Feeding(b, last) && OfOneClass(part) && (T.IsCjk(part[0]) ==> |part| == 1)
    requires last != "" ==> PartsApart(last, part)
    ensures Feeding(FeedOne(b, part), part)
  {
    hide Maximal;
    TokensOfOneClass(b.tokens);
    if T.IsCjk(part[0]) {
      if |b.held + part| >= 3 {
        MaximalSnoc(b.tokens, b.held + part);
      }
    } else if b.held != "" {
      MaximalSnoc(b.tokens, b.held);
      MaximalSnoc(b.tokens + [b.held], part);
    } else {
      MaximalSnoc(b.tokens, part);
    }
  }

  lemma TokensOfOneClass(tokens: seq<string>)
    requires Maximal(tokens)
    ensures tokens != [] ==> OfOneClass(tokens[|tokens| - 1])
  {
  }

  lemma {:induction false} FeedMaximal(parts: seq<string>)
    requires MaximalParts(parts)
    ensures Feeding(Feed(parts), if parts == [] then "" else parts[|parts| - 1])
  {
    if parts != [] {
      hide Feeding, OfOneClass, PartsApart;
      var init, part := parts[..|parts| - 1], parts[|parts| - 1];
      FeedMaximal(init);
      assert parts[|parts| - 1] == part;
      if init != [] {
        assert PartsApart(parts[|init| - 1], parts[|init|]);
      }
      FeedOneMaximal(Feed(init), if init == [] then "" else init[|init| - 1], part);
    }
  }

  /**
   * Tokens are cut no finer than they have to be: CJK characters in threes as far as they go, and whole runs of
   * letters and digits and of white space.
   */
  lemma {:induction false} TokensAreMaximal(text: string)
    ensures Maximal(Tokens(text))
  {
    PartsAreMaximal(text);
    FeedMaximal(Parts(text));
    var b := Feed(Parts(text));
    TokensOfOneClass(b.tokens);
    if b.held != "" {
      MaximalSnoc(b.tokens, b.held);
    }
  }

  // ---------------------------------------------------------------- the Backend's relay

  datatype Event = Event(kind: string, text: string)

  /** JSON encoding and decoding of events, which this project does not compute. */
  datatype Codec = Codec(encode: Event -> string, decode: string -> Option<Event>)

  /** What the Backend writes to the browser, one frame each. */
  datatype Frame = Meta | Relayed(payload: string, event: Event) | Failure(text: string) | Done | End

  const INTERRUPTED: string := "回答生成中断，请重试"
  const NO_ANSWER: string := "当前知识库未返回有效回答，请重试"
  const NOT_SAVED: string := "回答保存失败"

  datatype Relay = Relay(frames: seq<Frame>, answer: string, done: bool, failed: bool)

  /** The event of a line, with its payload; none for every line that is passed over. */
  function EventOf(codec: Codec, line: string): Option<(string, Event)> {
    if !(PREFIX <= line) then None
    else
      var payload := Trim(GoSpace, line[5..]);
      if payload == "" then None
      else
        match codec.decode(payload)
        case None => None
        case Some(event) => Some((payload, event))
  }

  /** A line carries an event exactly if data: begins it and what follows, trimmed, is not empty and can be decoded. */
  lemma EventsAreRead(codec: Codec, line: string)
    ensures EventOf(codec, line).Some? <==>
            && |line| >= 5 && line[..5] == "data:" && Trim(GoSpace, line[5..]) != ""
            && codec.decode(Trim(GoSpace, line[5..])).Some?
    ensures EventOf(codec, line).Some? ==>
              EventOf(codec, line).value.0 == Trim(GoSpace, line[5..]) &&
              codec.decode(Trim(GoSpace, line[5..])) == Some(EventOf(codec, line).value.1)
  {
  }

  function RelayLine(codec: Codec, r: Relay, line: string): Relay {
    match EventOf(codec, line)
    case None => r
    case Some((payload, event)) =>
      if event.kind == "token"
      then r.(answer := r.answer + event.text, frames := r.frames + [Relayed(payload, event)])
      else if event.kind == "done" then r.(done := true)
      else if event.kind == "error" then r.(failed := true, frames := r.frames + [Relayed(payload, event)])
      else r
  }

  /** The loop over the lines: it stops at the first done or error. */
  function RelayAll(codec: Codec, lines: seq<string>): Relay {
    if lines == [] then Relay([Meta], "", false, false)
    else
      var before := RelayAll(codec, lines[..|lines| - 1]);
      if before.done || before.failed then before else RelayLine(codec, before, lines[|lines| - 1])
  }

  function CompletionError(done: bool, answer: string, readFailed: bool): string {
    if readFailed || !done then INTERRUPTED
    else if Trim(GoSpace, answer) == "" then NO_ANSWER
    else ""
  }

  /** What follows the relayed lines, and what is saved. */
  function Close(r: Relay, readFailed: bool, saves: bool): (seq<Frame>, Option<string>) {
    var problem := CompletionError(r.done, r.answer, readFailed);
    if r.failed then (r.frames + [End], None)
    else if problem != "" then (r.frames + [Failure(problem)] + [End], None)
    else if !saves then (r.frames + [Failure(NOT_SAVED)] + [End], None)
    else (r.frames + [Done] + [End], Some(r.answer))
  }

  lemma RelayStep(codec: Codec, lines: seq<string>, i: nat)
    requires i < |lines|
    ensures var before := RelayAll(codec, lines[..i]);
            RelayAll(codec, lines[..i + 1]) ==
            if before.done || before.failed then before else RelayLine(codec, before, lines[i])
  {
    assert lines[..i + 1][..i] == lines[..i];
  }

  lemma {:induction false} StoppedStays(codec: Codec, lines: seq<string>, i: nat)
    requires i <= |lines|
    requires RelayAll(codec, lines[..i]).done || RelayAll(codec, lines[..i]).failed
    ensures RelayAll(codec, lines) == RelayAll(codec, lines[..i])
    decreases |lines| - i
  {
    if i == |lines| {
      assert lines[..i] == lines;
    } else {
      RelayStep(codec, lines, i);
      StoppedStays(codec, lines, i + 1);
    }
  }

  /** The handler: relays the Agent's lines, then saves the answer and says how it ended. */
  method Chat(codec: Codec, lines: seq<string>, readFailed: bool, saves: bool)
    returns (frames: seq<Frame>, saved: Option<string>)
    ensures (frames, saved) == Close(RelayAll(codec, lines), readFailed, saves)
  {
    frames := [Meta];
    var answer := "";
    var agentDone, agentFailed := false, false;
    var i := 0;
    while i < |lines| && !agentDone && !agentFailed
      invariant i <= |lines|
      invariant Relay(frames, answer, agentDone, agentFailed) == RelayAll(codec, lines[..i])
    {
      var line := lines[i];
      RelayStep(codec, lines, i);
      i := i + 1;
      if !(PREFIX <= line) {
        continue;
      }
      var payload := Trim(GoSpace, line[5..]);
      if payload == "" {
        continue;
      }
      var decoded := codec.decode(payload);
      if decoded.None? {
        continue;
      }
      var event := decoded.value;
      if event.kind == "token" {
        answer := answer + event.text;
        frames := frames + [Relayed(payload, event)];
      } else if event.kind == "done" {
        agentDone := true;
      } else if event.kind == "error" {
        agentFailed := true;
        frames := frames + [Relayed(payload, event)];
      }
    }
    if i == |lines| {
      assert lines[..i] == lines;
    } else {
      StoppedStays(codec, lines, i);
    }
    saved := None;
    var problem := CompletionError(agentDone, answer, readFailed);
    if !agentFailed && problem != "" {
      frames := frames + [Failure(problem)];
    }
    if !agentFailed && problem == "" {
      if saves {
        saved := Some(answer);
      } else {
        frames := frames + [Failure(NOT_SAVED)];
      }
    }
    if saved.Some? {
      frames := frames + [Done];
    }
    frames := frames + [End];
  }

  // ---------------------------------------------------------------- what the browser may rely on

  predicate IsToken(f: Frame) {
    f.Relayed? && f.event.kind == "token"
  }

  predicate IsError(f: Frame) {
    f.Failure? || (f.Relayed? && f.event.kind == "error")
  }

  /** The text of the relayed tokens, in order. */
  function TokenText(frames: seq<Frame>): string {
    if frames == [] then ""
    else
      var last := frames[|frames| - 1];
      TokenText(frames[..|frames| - 1]) + (if IsToken(last) then last.event.text else "")
  }

  lemma TokenTextSnoc(frames: seq<Frame>, f: Frame)
    ensures TokenText(frames + [f]) == TokenText(frames) + (if IsToken(f) then f.event.text else "")
  {
    assert (frames + [f])[..|frames|] == frames;
  }

  /** While the loop runs: meta, then tokens, and an error at the end exactly when the Agent failed. */
  ghost predicate RelaySound(r: Relay) {
    && r.frames != [] && r.frames[0] == Meta
    && (r.failed ==> |r.frames| >= 2 && IsError(r.frames[|r.frames| - 1]) && !r.done)
    && (forall i :: 1 <= i < (if r.failed then |r.frames| - 1 else |r.frames|) ==> IsToken(r.frames[i]))
    && TokenText(r.frames) == r.answer
  }

  lemma RelayLineSound(codec: Codec, r: Relay, line: string)
    requires RelaySound(r) && !r.done && !r.failed
    ensures RelaySound(RelayLine(codec, r, line))
  {
    match EventOf(codec, line)
    case None =>
    case Some((payload, event)) => TokenTextSnoc(r.frames, Relayed(payload, event));
  }

  lemma {:induction false} RelayAllSound(codec: Codec, lines: seq<string>)
    ensures RelaySound(RelayAll(codec, lines))
  {
    if lines == [] {
      assert TokenText([Meta][..0]) == "";
    } else {
      var init := lines[..|lines| - 1];
      RelayAllSound(codec, init);
      var before := RelayAll(codec, init);
      if !before.done && !before.failed {
        RelayLineSound(codec, before, lines[|lines| - 1]);
      }
    }
  }

  /**
   * Meta first, then tokens only, then exactly one error or done, then end. Done is sent exactly when the
   * answer was saved, and what is saved is the text of the relayed tokens.
   */
  ghost predicate WellFormed(frames: seq<Frame>, saved: Option<string>) {
    && |frames| >= 3 && frames[0] == Meta && frames[|frames| - 1] == End
    && (forall i :: 1 <= i < |frames| - 2 ==> IsToken(frames[i]))
    && (if saved.Some? then frames[|frames| - 2] == Done else IsError(frames[|frames| - 2]))
    && (saved.Some? ==> saved.value == TokenText(frames) && Trim(GoSpace, saved.value) != "")
  }

  lemma CloseSound(r: Relay, readFailed: bool, saves: bool)
    requires RelaySound(r)
    ensures WellFormed(Close(r, readFailed, saves).0, Close(r, readFailed, saves).1)
  {
    TokenTextSnoc(r.frames, Done);
    TokenTextSnoc(r.frames + [Done], End);
  }

  /** What every sequence of lines yields is well formed. */
  lemma {:induction false} EveryStreamIsWellFormed(codec: Codec, lines: seq<string>, readFailed: bool, saves: bool)
    ensures var (frames, saved) := Close(RelayAll(codec, lines), readFailed, saves);
            WellFormed(frames, saved)
  {
    hide RelayAll, RelaySound, WellFormed, Close;
    RelayAllSound(codec, lines);
    CloseSound(RelayAll(codec, lines), readFailed, saves);
  }

  // ---------------------------------------------------------------- when an answer is saved

  /** Whether the line ends the stream. */
  predicate Ends(codec: Codec, line: string) {
    EventOf(codec, line).Some? &&
    (EventOf(codec, line).value.1.kind == "done" || EventOf(codec, line).value.1.kind == "error")
  }

  /** The token text of the lines before the first that ends the stream. */
  function AnswerOf(codec: Codec, lines: seq<string>): string {
    if lines == [] then ""
    else
      var init, last := lines[..|lines| - 1], lines[|lines| - 1];
      if exists k :: 0 <= k < |init| && Ends(codec, init[k]) then AnswerOf(codec, init)
      else
        AnswerOf(codec, init) +
        (match EventOf(codec, last)
         case None => ""
         case Some((_, event)) => if event.kind == "token" then event.text else "")
  }

  /** The first line that ends the stream, if any, says done. */
  ghost predicate SaysDone(codec: Codec, lines: seq<string>) {
    exists k :: 0 <= k < |lines| && Ends(codec, lines[k]) && EventOf(codec, lines[k]).value.1.kind == "done" &&
                forall j :: 0 <= j < k ==> !Ends(codec, lines[j])
  }

  lemma SaysDoneSnoc(codec: Codec, lines: seq<string>, line: string)
    ensures SaysDone(codec, lines + [line]) <==>
            SaysDone(codec, lines) ||
            ((forall k :: 0 <= k < |lines| ==> !Ends(codec, lines[k])) && Ends(codec, line) &&
             EventOf(codec, line).value.1.kind == "done")
  {
    var more := lines + [line];
    if SaysDone(codec, lines) {
      var k :| 0 <= k < |lines| && Ends(codec, lines[k]) && EventOf(codec, lines[k]).value.1.kind == "done" &&
               forall j :: 0 <= j < k ==> !Ends(codec, lines[j]);
      assert more[k] == lines[k] && forall j :: 0 <= j < k ==> more[j] == lines[j];
    }
    assert more[|lines|] == line && forall j :: 0 <= j < |lines| ==> more[j] == lines[j];
  }

  lemma {:induction false} RelayedAnswer(codec: Codec, lines: seq<string>)
    ensures var r := RelayAll(codec, lines);
            && r.answer == AnswerOf(codec, lines)
            && (r.done <==> SaysDone(codec, lines))
            && (r.done || r.failed <==> exists k :: 0 <= k < |lines| && Ends(codec, lines[k]))
  {
    if lines != [] {
      var init, last := lines[..|lines| - 1], lines[|lines| - 1];
      assert lines == init + [last];
      RelayedAnswer(codec, init);
      SaysDoneSnoc(codec, init, last);
      assert forall k :: 0 <= k < |init| ==> lines[k] == init[k];
    }
  }

  /** An answer is saved exactly when the Agent said done, the stream was read well, and the text is not blank. */
  lemma {:induction false} SavedIff(codec: Codec, lines: seq<string>, readFailed: bool, saves: bool)
    ensures Close(RelayAll(codec, lines), readFailed, saves).1 ==
            if SaysDone(codec, lines) && !readFailed && saves && Trim(GoSpace, AnswerOf(codec, lines)) != ""
            then Some(AnswerOf(codec, lines)) else None
  {
    RelayedAnswer(codec, lines);
    RelayAllSound(codec, lines);
  }

  /** Which error the handler itself reports: a broken stream before a blank answer before a failing store. */
  lemma {:induction false} FailuresInOrder(codec: Codec, lines: seq<string>, readFailed: bool, saves: bool)
    ensures |Close(RelayAll(codec, lines), readFailed, saves).0| >= 2
    ensures var frames := Close(RelayAll(codec, lines), readFailed, saves).0;
            var last := frames[|frames| - 2];
            var answer := AnswerOf(codec, lines);
            if SaysDone(codec, lines) && !readFailed
            then
              if Trim(GoSpace, answer) == "" then last == Failure("当前知识库未返回有效回答，请重试")
              else if saves then last == Done else last == Failure("回答保存失败")
            else last == Failure("回答生成中断，请重试") || RelayAll(codec, lines).failed
    ensures RelayAll(codec, lines).failed <==>
            (exists k :: 0 <= k < |lines| && Ends(codec, lines[k])) && !SaysDone(codec, lines)
  {
    hide RelayAll, SaysDone, AnswerOf, Ends;
    RelayedAnswer(codec, lines);
    RelayAllSound(codec, lines);
  }

  // ---------------------------------------------------------------- from the Agent to the browser

  /** Bytes of a text in UTF-8 (section 3 of RFC 3629). */
  function Utf8Size(s: string): nat {
    if s == "" then 0
    else
      var c := s[|s| - 1];
      Utf8Size(s[..|s| - 1]) + (if c < '\U{80}' then 1 else if c < '\U{800}' then 2 else if c < '\U{10000}' then 3 else 4)
  }

  /** One byte for ASCII, two up to U+07FF, three up to U+FFFF, as for CJK characters, and four beyond. */
  lemma {:induction false} Utf8Bytes(a: string, c: char)
    ensures Utf8Size("") == 0
    ensures Utf8Size(a + [c]) == Utf8Size(a) + (if c as int <= 0x7f then 1 else if c as int <= 0x7ff then 2
                                                else if c as int <= 0xffff then 3 else 4)
  {
    assert (a + [c])[..|a|] == a;
  }

  const MAX_TOKEN: nat := 1024 * 1024

  /** Whether the buffer of the scanner holds the line and the newline after it. */
  predicate FitsBuffer(line: string) {
    Utf8Size(line) < MAX_TOKEN
  }

  /** The lines before the first one that does not fit. */
  function Readable(lines: seq<string>): seq<string> {
    if lines == [] then []
    else
      var init, last := lines[..|lines| - 1], lines[|lines| - 1];
      if Readable(init) == init && FitsBuffer(last) then lines else Readable(init)
  }

  /** The pieces between newlines, without an empty last one. */
  function RawLines(text: string): seq<string> {
    var lines := Split(text);
    if Last(lines) == "" then Complete(lines) else lines
  }

  /** bufio.ScanLines: lines lose a carriage return at their end. */
  function ScanLines(text: string): seq<string> {
    DropReturns(Readable(RawLines(text)))
  }

  /** Whether the loop asks the scanner for a line that does not fit. */
  predicate ScanFails(codec: Codec, text: string) {
    var r := RelayAll(codec, ScanLines(text));
    Readable(RawLines(text)) != RawLines(text) && !r.done && !r.failed
  }

  /** What the handler makes of the Agent's stream: the frames, and the text it saves. */
  function Handled(codec: Codec, text: string, saves: bool): (seq<Frame>, Option<string>) {
    Close(RelayAll(codec, ScanLines(text)), ScanFails(codec, text), saves)
  }

  function DropReturns(lines: seq<string>): seq<string> {
    if lines == [] then []
    else
      var line := lines[|lines| - 1];
      DropReturns(lines[..|lines| - 1]) +
      [if line != "" && line[|line| - 1] == '\r' then line[..|line| - 1] else line]
  }

  /** A carriage return at the end of a line is not part of it; the rest of the line is. */
  lemma {:induction false} ReturnsAreDropped(lines: seq<string>, i: nat)
    requires i < |lines|
    ensures |DropReturns(lines)| == |lines|
    ensures forall line :: lines[i] == line + "\r" ==> DropReturns(lines)[i] == line
    ensures (lines[i] == "" || lines[i][|lines[i]| - 1] != '\r') ==> DropReturns(lines)[i] == lines[i]
  {
    var n := |lines| - 1;
    if i < n {
      ReturnsAreDropped(lines[..n], i);
    } else if n > 0 {
      ReturnsAreDropped(lines[..n], 0);
    }
    forall line | lines[i] == line + "\r" ensures DropReturns(lines)[i] == line {
      assert (line + "\r")[..|line|] == line;
    }
  }

  /** What is assumed of JSON: decoding undoes encoding, and encoded events are one line without outer blanks. */
  ghost predicate Lawful(codec: Codec) {
    forall e: Event ::
      && codec.decode(codec.encode(e)) == Some(e)
      && OneLine(GoSpace, codec.encode(e)) && OneLine(JsSpace, codec.encode(e))
  }

  function EscapedChar(c: char): (pair: string)
    ensures |pair| == 2 && '\n' !in pair && pair[0] != '|'
    ensures (if pair[0] == '?' then '\n' else pair[1]) == c
  {
    if c == '\n' then "?n" else ['!', c]
  }

  /** Every character as a pair, so that no newline and no separator can appear in the middle of a text. */
  function Escaped(s: string): string {
    if s == "" then "" else EscapedChar(s[0]) + Escaped(s[1..])
  }

  function Unescaped(s: string): string {
    if |s| < 2 then "" else [if s[0] == '?' then '\n' else s[1]] + Unescaped(s[2..])
  }

  /** Length of the escaped text before the separator pair. */
  function BeforeSeparator(s: string): (n: nat)
    ensures n <= |s|
  {
    if |s| < 2 || s[0] == '|' then 0 else 2 + BeforeSeparator(s[2..])
  }

  function PlainEncode(e: Event): string {
    "{" + (Escaped(e.kind) + ("|." + Escaped(e.text))) + "}"
  }

  function PlainDecode(s: string): Option<Event> {
    if |s| < 2 then None
    else
      var body := s[1..|s| - 1];
      var n := BeforeSeparator(body);
      if n + 2 > |body| then None else Some(Event(Unescaped(body[..n]), Unescaped(body[n + 2..])))
  }

  lemma {:induction false} EscapedSound(s: string)
    ensures Unescaped(Escaped(s)) == s && '\n' !in Escaped(s)
  {
    if s != "" {
      hide EscapedChar;
      EscapedSound(s[1..]);
      assert Escaped(s)[2..] == Escaped(s[1..]);
    }
  }

  lemma PairSkipped(pair: string, rest: string)
    requires |pair| == 2 && pair[0] != '|'
    ensures BeforeSeparator(pair + rest) == 2 + BeforeSeparator(rest)
  {
    assert (pair + rest)[2..] == rest;
  }

  lemma {:induction false} SeparatorFound(s: string, rest: string)
    requires rest != "" && rest[0] == '|'
    ensures BeforeSeparator(Escaped(s) + rest) == |Escaped(s)|
  {
    if s == "" {
      assert Escaped(s) + rest == rest;
    } else {
      hide EscapedChar, BeforeSeparator;
      SeparatorFound(s[1..], rest);
      PairSkipped(EscapedChar(s[0]), Escaped(s[1..]) + rest);
      AppendAssociative(EscapedChar(s[0]), Escaped(s[1..]), rest);
    }
  }

  lemma PlainCodes(e: Event)
    ensures PlainDecode(PlainEncode(e)) == Some(e)
    ensures '\n' !in PlainEncode(e)
  {
    hide Escaped, Unescaped, BeforeSeparator;
    var code, kind, text := PlainEncode(e), Escaped(e.kind), Escaped(e.text);
    EscapedSound(e.kind);
    EscapedSound(e.text);
    SeparatorFound(e.kind, "|." + text);
    var body := kind + ("|." + text);
    assert code[1..|code| - 1] == body;
    assert body[..|kind|] == kind && body[|kind| + 2..] == text;
  }

  /** Codings with these laws exist. */
  lemma LawfulCodecExists()
    ensures Lawful(Codec(PlainEncode, PlainDecode))
  {
    forall e: Event
      ensures PlainDecode(PlainEncode(e)) == Some(e)
      ensures OneLine(GoSpace, PlainEncode(e)) && OneLine(JsSpace, PlainEncode(e))
    {
      PlainCodes(e);
      var code := PlainEncode(e);
      assert code[0] == '{' && code[|code| - 1] == '}';
    }
  }

  function EncodeAll(codec: Codec, events: seq<Event>): seq<string> {
    seq(|events|, i requires 0 <= i < |events| => codec.encode(events[i]))
  }

  function TokenEvents(tokens: seq<string>): seq<Event> {
    seq(|tokens|, i requires 0 <= i < |tokens| => Event("token", tokens[i]))
  }

  /** What the Agent streams for an answer: the citations, the tokens, and done. */
  function AgentEvents(answer: string): seq<Event> {
    [Event("citations", "")] + TokenEvents(Tokens(answer)) + [Event("done", "")]
  }

  /** The Agent's stream of these events. */
  function AgentStream(codec: Codec, events: seq<Event>): string {
    Encode(EncodeAll(codec, events))
  }

  function FrameLines(payloads: seq<string>): seq<string> {
    if payloads == [] then [] else FrameLines(payloads[..|payloads| - 1]) + ["data: " + payloads[|payloads| - 1]] + [""]
  }

  lemma DropReturnsSnoc(lines: seq<string>, line: string)
    requires line == "" || line[|line| - 1] != '\r'
    ensures DropReturns(lines + [line]) == DropReturns(lines) + [line]
  {
    assert (lines + [line])[..|lines|] == lines;
  }

  lemma {:induction false} FramesSplit(payloads: seq<string>)
    requires forall p :: p in payloads ==> '\n' !in p
    ensures Last(Split(Encode(payloads))) == ""
    ensures Complete(Split(Encode(payloads))) == FrameLines(payloads)
  {
    if payloads == [] {
      assert Complete(Split("")) == [];
    } else {
      var init, last := payloads[..|payloads| - 1], payloads[|payloads| - 1];
      assert init + [last] == payloads;
      FramesSplit(init);
      FrameLinesAppended(Encode(init), last);
      assert FrameLines(init) + ["data: " + last, ""] == FrameLines(payloads);
    }
  }

  lemma {:induction false} NoReturnsInFrames(payloads: seq<string>)
    requires forall p :: p in payloads ==> OneLine(GoSpace, p)
    ensures DropReturns(FrameLines(payloads)) == FrameLines(payloads)
  {
    if payloads != [] {
      hide DropReturns, GoSpace;
      var init, last := payloads[..|payloads| - 1], payloads[|payloads| - 1];
      var line := "data: " + last;
      assert init + [last] == payloads;
      assert last in payloads;
      NoReturnsInFrames(init);
      assert line[|line| - 1] == last[|last| - 1];
      DropReturnsSnoc(FrameLines(init), line);
      DropReturnsSnoc(FrameLines(init) + [line], "");
    } else {
      assert DropReturns([]) == [];
    }
  }

  /** How many leading payloads have frames that fit. */
  function Fitting(payloads: seq<string>): (n: nat)
    ensures n <= |payloads|
  {
    if payloads == [] then 0
    else
      var init, last := payloads[..|payloads| - 1], payloads[|payloads| - 1];
      if Fitting(init) == |init| && FitsBuffer("data: " + last) then |payloads| else Fitting(init)
  }

  lemma {:induction false} FittingAll(payloads: seq<string>)
    ensures Fitting(payloads) == |payloads| <==> forall p :: p in payloads ==> FitsBuffer("data: " + p)
  {
    if payloads != [] {
      var init, last := payloads[..|payloads| - 1], payloads[|payloads| - 1];
      assert init + [last] == payloads;
      FittingAll(init);
    }
  }

  lemma ReadableSnoc(lines: seq<string>, line: string)
    ensures Readable(lines + [line]) ==
            if Readable(lines) == lines && FitsBuffer(line) then lines + [line] else Readable(lines)
  {
    assert (lines + [line])[..|lines|] == lines;
  }

  lemma {:induction false} FrameLinesCount(payloads: seq<string>)
    ensures |FrameLines(payloads)| == 2 * |payloads|
  {
    if payloads != [] {
      FrameLinesCount(payloads[..|payloads| - 1]);
    }
  }

  lemma FrameLinesOf(payloads: seq<string>)
    requires payloads != []
    ensures FrameLines(payloads) ==
            FrameLines(payloads[..|payloads| - 1]) + ["data: " + payloads[|payloads| - 1]] + [""]
  {
  }

  /** The scanner reads the frames before the first that does not fit. */
  lemma {:induction false} FramesReadable(payloads: seq<string>)
    ensures Readable(FrameLines(payloads)) == FrameLines(payloads[..Fitting(payloads)])
    ensures Readable(FrameLines(payloads)) == FrameLines(payloads) <==> Fitting(payloads) == |payloads|
  {
    if payloads == [] {
      assert payloads[..0] == [];
    } else {
      hide Readable, FitsBuffer, FrameLines;
      var init, last := payloads[..|payloads| - 1], payloads[|payloads| - 1];
      var lines, line := FrameLines(init), "data: " + last;
      FramesReadable(init);
      FrameLinesCount(payloads);
      FrameLinesCount(payloads[..Fitting(payloads)]);
      FrameLinesOf(payloads);
      ReadableSnoc(lines, line);
      ReadableSnoc(lines + [line], "");
      EmptyFits();
      assert payloads[..|payloads|] == payloads && init[..|init|] == init;
      assert payloads[..Fitting(init)] == init[..Fitting(init)];
    }
  }

  lemma EmptyFits()
    ensures FitsBuffer("")
  {
  }

  lemma EncodedFrames(codec: Codec, events: seq<Event>)
    requires Lawful(codec)
    ensures forall p :: p in EncodeAll(codec, events) ==> OneLine(GoSpace, p)
  {
    forall p | p in EncodeAll(codec, events) ensures OneLine(GoSpace, p) {
      var i :| 0 <= i < |events| && EncodeAll(codec, events)[i] == p;
      assert codec.decode(codec.encode(events[i])) == Some(events[i]);
    }
  }

  /** How many leading events the scanner reads. */
  function Arriving(codec: Codec, events: seq<Event>): (n: nat)
    ensures n <= |events|
  {
    Fitting(EncodeAll(codec, events))
  }

  lemma {:induction false} LinesThatArrive(codec: Codec, events: seq<Event>)
    requires Lawful(codec)
    ensures ScanLines(AgentStream(codec, events)) == FrameLines(EncodeAll(codec, events[..Arriving(codec, events)]))
    ensures Readable(RawLines(AgentStream(codec, events))) == RawLines(AgentStream(codec, events)) <==>
            Arriving(codec, events) == |events|
  {
    hide Lawful, Readable, DropReturns, FrameLines, Fitting;
    var payloads, n := EncodeAll(codec, events), Arriving(codec, events);
    EncodedFrames(codec, events);
    EncodedFrames(codec, events[..n]);
    FramesSplit(payloads);
    FramesReadable(payloads);
    assert payloads[..n] == EncodeAll(codec, events[..n]);
    NoReturnsInFrames(EncodeAll(codec, events[..n]));
  }

  /** The relay decodes a frame line to the event it was made of, and passes over the empty line after it. */
  lemma LineOfEvent(codec: Codec, e: Event)
    requires Lawful(codec)
    ensures EventOf(codec, "data: " + codec.encode(e)) == Some((codec.encode(e), e))
    ensures EventOf(codec, "") == None
  {
    var payload := codec.encode(e);
    var line := "data: " + payload;
    assert codec.decode(payload) == Some(e);
    assert line[..5] == PREFIX && line[5..] == " " + payload;
    assert (" " + payload)[1..] == payload;
    TightIsTrimmed(GoSpace, payload);
    assert TrimStart(GoSpace, " " + payload) == payload;
    assert Trim(GoSpace, " " + payload) == payload;
  }

  /** The relay of whole events. */
  function RelayEvent(codec: Codec, r: Relay, e: Event): Relay {
    if r.done || r.failed then r
    else if e.kind == "token" then r.(answer := r.answer + e.text, frames := r.frames + [Relayed(codec.encode(e), e)])
    else if e.kind == "done" then r.(done := true)
    else if e.kind == "error" then r.(failed := true, frames := r.frames + [Relayed(codec.encode(e), e)])
    else r
  }

  function RelayEvents(codec: Codec, events: seq<Event>): Relay {
    if events == [] then Relay([Meta], "", false, false)
    else RelayEvent(codec, RelayEvents(codec, events[..|events| - 1]), events[|events| - 1])
  }

  lemma RelaySnoc(codec: Codec, lines: seq<string>, line: string)
    ensures var before := RelayAll(codec, lines);
            RelayAll(codec, lines + [line]) ==
            if before.done || before.failed then before else RelayLine(codec, before, line)
  {
    assert (lines + [line])[..|lines|] == lines;
  }

  /** The frame of one event, and the empty line after it, relay that event. */
  lemma {:induction false} RelayFrame(codec: Codec, lines: seq<string>, e: Event)
    requires Lawful(codec)
    ensures RelayAll(codec, lines + ["data: " + codec.encode(e)] + [""]) == RelayEvent(codec, RelayAll(codec, lines), e)
  {
    hide RelayAll, EventOf, Lawful;
    var line := "data: " + codec.encode(e);
    LineOfEvent(codec, e);
    RelaySnoc(codec, lines, line);
    RelaySnoc(codec, lines + [line], "");
  }

  lemma {:induction false} RelayOfEvents(codec: Codec, events: seq<Event>)
    requires Lawful(codec)
    ensures RelayAll(codec, FrameLines(EncodeAll(codec, events))) == RelayEvents(codec, events)
  {
    if events != [] {
      hide RelayAll, EventOf, Lawful, RelayEvent;
      var init, e := events[..|events| - 1], events[|events| - 1];
      RelayOfEvents(codec, init);
      RelayFrame(codec, FrameLines(EncodeAll(codec, init)), e);
      assert EncodeAll(codec, events)[..|events| - 1] == EncodeAll(codec, init);
    }
  }

  lemma EventsSnoc(codec: Codec, events: seq<Event>, e: Event)
    ensures RelayEvents(codec, events + [e]) == RelayEvent(codec, RelayEvents(codec, events), e)
  {
    assert (events + [e])[..|events|] == events;
  }

  lemma {:induction false} TokensRelayed(codec: Codec, tokens: seq<string>)
    ensures var r := RelayEvents(codec, [Event("citations", "")] + TokenEvents(tokens));
            r.answer == T.Concat(tokens) && !r.done && !r.failed
  {
    var head := [Event("citations", "")];
    if tokens == [] {
      assert head + TokenEvents(tokens) == [] + head;
      EventsSnoc(codec, [], Event("citations", ""));
    } else {
      var init, last := tokens[..|tokens| - 1], tokens[|tokens| - 1];
      TokensRelayed(codec, init);
      T.ConcatSnoc(init, last);
      assert tokens == init + [last];
      assert head + TokenEvents(tokens) == (head + TokenEvents(init)) + [Event("token", last)];
      EventsSnoc(codec, head + TokenEvents(init), Event("token", last));
    }
  }

  /** The scanner reads every line of the Agent's stream. */
  ghost predicate FitsTheScanner(codec: Codec, answer: string) {
    forall e :: e in AgentEvents(answer) ==> FitsBuffer("data: " + codec.encode(e))
  }

  lemma AllArriveIff(codec: Codec, answer: string)
    ensures Arriving(codec, AgentEvents(answer)) == |AgentEvents(answer)| <==> FitsTheScanner(codec, answer)
  {
    var events := AgentEvents(answer);
    var payloads := EncodeAll(codec, events);
    FittingAll(payloads);
    if FitsTheScanner(codec, answer) {
      forall p | p in payloads ensures FitsBuffer("data: " + p) {
        var i :| 0 <= i < |payloads| && payloads[i] == p;
        assert events[i] in events;
      }
    } else {
      var e :| e in events && !FitsBuffer("data: " + codec.encode(e));
      var i :| 0 <= i < |events| && events[i] == e;
      assert payloads[i] in payloads;
    }
  }

  lemma {:induction false} ConcatPrefix(tokens: seq<string>, n: nat)
    requires n <= |tokens|
    ensures T.Concat(tokens[..n]) <= T.Concat(tokens)
  {
    if n < |tokens| {
      var init := tokens[..|tokens| - 1];
      ConcatPrefix(init, n);
      assert init[..n] == tokens[..n] && init + [tokens[|tokens| - 1]] == tokens;
      T.ConcatSnoc(init, tokens[|tokens| - 1]);
    } else {
      assert tokens[..n] == tokens;
    }
  }

  /** What the relay has when the scanner stops: all of the answer, or its beginning and no word of its end. */
  lemma {:induction false} AnswerRelayed(codec: Codec, answer: string)
    requires Lawful(codec)
    ensures var r := RelayAll(codec, ScanLines(AgentStream(codec, AgentEvents(answer))));
            && !r.failed && r.answer <= answer && (r.done <==> FitsTheScanner(codec, answer))
            && (r.done ==> r.answer == answer)
  {
    hide Lawful, RelayAll, ScanLines, RelayEvents, FitsTheScanner, Tokens, FrameLines, T.Concat;
    var tokens, events := Tokens(answer), AgentEvents(answer);
    var n := Arriving(codec, events);
    LinesThatArrive(codec, events);
    AllArriveIff(codec, answer);
    RelayOfEvents(codec, events[..n]);
    TokensLossless(answer);
    if n == |events| {
      assert events[..n] == events;
      TokensRelayed(codec, tokens);
      EventsSnoc(codec, [Event("citations", "")] + TokenEvents(tokens), Event("done", ""));
    } else if n == 0 {
      NothingRelayed(codec);
      assert events[..0] == [];
    } else {
      ConcatPrefix(tokens, n - 1);
      TokensRelayed(codec, tokens[..n - 1]);
      assert events[..n] == [Event("citations", "")] + TokenEvents(tokens[..n - 1]);
    }
  }

  lemma NothingRelayed(codec: Codec)
    ensures RelayEvents(codec, []) == Relay([Meta], "", false, false)
  {
  }

  /**
   * What is saved of an answer that the Agent finished: the whole of it, exactly if it is not blank, the store
   * takes it, and no line of the Agent's stream is too long for the scanner.
   */
  lemma {:induction false} TheWholeAnswerIsSaved(codec: Codec, answer: string, saves: bool)
    requires Lawful(codec)
    ensures Handled(codec, AgentStream(codec, AgentEvents(answer)), saves).1 ==
            if saves && Trim(GoSpace, answer) != "" && FitsTheScanner(codec, answer) then Some(answer) else None
  {
    hide Lawful, RelayAll, ScanLines, FitsTheScanner, AgentEvents, AgentStream, Readable, RawLines, Trim;
    AnswerRelayed(codec, answer);
  }

  // ---------------------------------------------------------------- end to end

  /** The payload of a frame: a relayed one goes out as it came in. */
  function PayloadFor(codec: Codec, f: Frame): string {
    match f
    case Meta => codec.encode(Event("meta", ""))
    case Relayed(payload, _) => payload
    case Failure(text) => codec.encode(Event("error", text))
    case Done => codec.encode(Event("done", ""))
    case End => codec.encode(Event("end", ""))
  }

  /** What the browser is told by each frame. */
  lemma FramesAreTyped(codec: Codec, f: Frame)
    requires Lawful(codec)
    ensures f == Meta ==> codec.decode(PayloadFor(codec, f)) == Some(Event("meta", ""))
    ensures f.Failure? ==> codec.decode(PayloadFor(codec, f)) == Some(Event("error", f.text))
    ensures f == Done ==> codec.decode(PayloadFor(codec, f)) == Some(Event("done", ""))
    ensures f == End ==> codec.decode(PayloadFor(codec, f)) == Some(Event("end", ""))
    ensures f.Relayed? ==> PayloadFor(codec, f) == f.payload
  {
  }

  function Wire(codec: Codec, frames: seq<Frame>): seq<string> {
    seq(|frames|, i requires 0 <= i < |frames| => PayloadFor(codec, frames[i]))
  }

  /** Relayed payloads are what encoding their events yields. */
  ghost predicate Encoded(codec: Codec, frames: seq<Frame>) {
    forall i :: 0 <= i < |frames| && frames[i].Relayed? ==> frames[i].payload == codec.encode(frames[i].event)
  }

  lemma {:induction false} RelayedAsEncoded(codec: Codec, events: seq<Event>)
    ensures Encoded(codec, RelayEvents(codec, events).frames)
  {
    if events != [] {
      RelayedAsEncoded(codec, events[..|events| - 1]);
    }
  }

  /** The text the browser shows: that of every token event it is handed. */
  function Shown(codec: Codec, payloads: seq<string>): string {
    if payloads == [] then ""
    else
      Shown(codec, payloads[..|payloads| - 1]) +
      (match codec.decode(payloads[|payloads| - 1])
       case None => ""
       case Some(event) => if event.kind == "token" then event.text else "")
  }

  lemma DecodedFrame(codec: Codec, f: Frame)
    requires Lawful(codec) && (f.Relayed? ==> f.payload == codec.encode(f.event))
    ensures OneLine(JsSpace, PayloadFor(codec, f))
    ensures codec.decode(PayloadFor(codec, f)).Some?
    ensures var event := codec.decode(PayloadFor(codec, f)).value;
            if f.Relayed? then event == f.event else event.kind != "token"
  {
    var e := match f
      case Meta => Event("meta", "")
      case Relayed(_, event) => event
      case Failure(text) => Event("error", text)
      case Done => Event("done", "")
      case End => Event("end", "");
    assert codec.decode(codec.encode(e)) == Some(e);
  }

  lemma {:induction false} ShownIsTokenText(codec: Codec, frames: seq<Frame>)
    requires Lawful(codec) && Encoded(codec, frames)
    ensures Shown(codec, Wire(codec, frames)) == TokenText(frames)
  {
    if frames != [] {
      hide Lawful;
      var init, f := frames[..|frames| - 1], frames[|frames| - 1];
      ShownIsTokenText(codec, init);
      assert Wire(codec, frames)[..|frames| - 1] == Wire(codec, init);
      DecodedFrame(codec, f);
    }
  }

  lemma {:induction false} LinesRelayedAsEncoded(codec: Codec, events: seq<Event>)
    requires Lawful(codec)
    ensures Encoded(codec, RelayAll(codec, ScanLines(AgentStream(codec, events))).frames)
  {
    hide Lawful, RelayAll, RelayEvents, Encoded, ScanLines, FrameLines;
    var events' := events[..Arriving(codec, events)];
    LinesThatArrive(codec, events);
    RelayOfEvents(codec, events');
    RelayedAsEncoded(codec, events');
  }

  lemma CloseEncoded(codec: Codec, r: Relay, readFailed: bool, saves: bool)
    requires Encoded(codec, r.frames)
    ensures Encoded(codec, Close(r, readFailed, saves).0)
  {
  }

  lemma {:induction false} OneLineOnTheWire(codec: Codec, frames: seq<Frame>)
    requires Lawful(codec) && Encoded(codec, frames)
    ensures forall p :: p in Wire(codec, frames) ==> OneLine(JsSpace, p)
  {
    hide Lawful;
    forall p | p in Wire(codec, frames) ensures OneLine(JsSpace, p) {
      var i :| 0 <= i < |frames| && Wire(codec, frames)[i] == p;
      DecodedFrame(codec, frames[i]);
    }
  }

  lemma {:induction false} NoTokensAfter(frames: seq<Frame>, f: Frame)
    requires !IsToken(f)
    ensures TokenText(frames + [f] + [End]) == TokenText(frames)
  {
    hide TokenText;
    TokenTextSnoc(frames, f);
    TokenTextSnoc(frames + [f], End);
  }

  lemma {:induction false} CloseText(r: Relay, readFailed: bool, saves: bool)
    requires RelaySound(r)
    ensures TokenText(Close(r, readFailed, saves).0) == r.answer
  {
    hide TokenText, CompletionError;
    TokenTextSnoc(r.frames, End);
    NoTokensAfter(r.frames, Done);
    NoTokensAfter(r.frames, Failure(CompletionError(r.done, r.answer, readFailed)));
    NoTokensAfter(r.frames, Failure(NOT_SAVED));
  }

  /**
   * From the Agent's answer to the browser, over any cutting of the Backend's stream into network reads: what
   * the browser shows is the answer, character for character, or its beginning when a line of the Agent's
   * stream is too long for the scanner; and what was saved is what it shows.
   */
  lemma {:induction false} TheBrowserShowsTheAnswer(codec: Codec, answer: string, saves: bool, pieces: seq<string>)
    requires Lawful(codec)
    ensures var (frames, saved) := Handled(codec, AgentStream(codec, AgentEvents(answer)), saves);
            T.Concat(pieces) == Encode(Wire(codec, frames)) ==>
              var shown := Shown(codec, Deliver(T.Concat(pieces)));
              && shown <= answer && (FitsTheScanner(codec, answer) ==> shown == answer)
              && (saved.Some? ==> saved.value == shown)
  {
    hide Lawful, RelayAll, TokenText, Shown, Encoded, FitsTheScanner, AgentEvents, AgentStream, ScanLines, Close,
         WellFormed, RelaySound, Wire, ScanFails, Deliver, T.Concat;
    var text := AgentStream(codec, AgentEvents(answer));
    var r := RelayAll(codec, ScanLines(text));
    var (frames, saved) := Handled(codec, text, saves);
    AnswerRelayed(codec, answer);
    TheWholeAnswerIsSaved(codec, answer, saves);
    RelayAllSound(codec, ScanLines(text));
    CloseText(r, ScanFails(codec, text), saves);
    LinesRelayedAsEncoded(codec, AgentEvents(answer));
    CloseEncoded(codec, r, ScanFails(codec, text), saves);
    OneLineOnTheWire(codec, frames);
    if T.Concat(pieces) == Encode(Wire(codec, frames)) {
      FramesRoundTrip(Wire(codec, frames), pieces);
      ShownIsTokenText(codec, frames);
    }
  }
}
