/** What a client gets from a turn, told over the lines themselves: which line ends it and how, and
    what each line before that contributes to the message. */
module TurnMeaning {
  import opened Wrappers
  import opened Turns
  import opened Rendering
  import opened Decoding
  import opened Streams

  // ---------- lines that do not end a turn ----------

  /** Bytes up to and including the last of these lines, each with its line end. */
  function Bytes(lines: seq<Line>): nat {
    if lines == [] then 0 else Bytes(lines[..|lines| - 1]) + lines[|lines| - 1].size + 1
  }

  /** The last of these lines is within both limits. */
  predicate Fits(lines: seq<Line>, lim: Limits)
    requires lines != []
  {
    lines[|lines| - 1].size <= lim.event && Bytes(lines) <= lim.response
  }

  /** The arguments of a call: `input` decides, and only without it `args`. */
  predicate GoodArgs(ev: Event) {
    match ev.input
    case JsonArgs(_) => true
    case BadArgs => false
    case NoArgs => ev.args != BadArgs
  }

  predicate Quiet(body: Body) {
    match body
    case Blank => true
    case Malformed => false
    case Parsed(ev) =>
      ev.kind == TextDelta || ev.kind == ReasoningDelta || ev.kind == ReasoningStart || ev.kind == ReasoningEnd
      || ev.kind == OtherKind || (ev.kind == ToolCalled && GoodArgs(ev))
  }

  /** None of these lines ends the turn. */
  predicate Harmless(lines: seq<Line>, lim: Limits) {
    lines == [] || (Harmless(lines[..|lines| - 1], lim) && Fits(lines, lim) && Quiet(lines[|lines| - 1].body))
  }

  /** How many lines come before the one that ends the turn; all of them when none does. */
  function Stop(lines: seq<Line>, lim: Limits): (n: nat)
    ensures n <= |lines| && Harmless(lines[..n], lim)
    ensures n < |lines| ==> !Harmless(lines[..n + 1], lim)
  {
    if lines == [] then 0
    else
      var before := lines[..|lines| - 1];
      var n := Stop(before, lim);
      assert forall k :: 0 <= k <= |before| ==> before[..k] == lines[..k];
      assert lines[..|lines|] == lines;
      if n < |before| || !Harmless(lines, lim) then n else |lines|
  }

  // ---------- what a line contributes ----------

  function WordsOf(ev: Event): string {
    if ev.text == "" then ev.delta else ev.text
  }

  /** The words of all lines of one kind, in order. */
  function Words(kind: Kind, lines: seq<Line>): string {
    if lines == [] then ""
    else
      var body := lines[|lines| - 1].body;
      Words(kind, lines[..|lines| - 1]) + if body.Parsed? && body.event.kind == kind then WordsOf(body.event) else ""
  }

  predicate IsCall(body: Body) {
    body.Parsed? && body.event.kind == ToolCalled
  }

  /** How many of the calls came without an id. */
  function Anonymous(lines: seq<Line>): nat {
    if lines == [] then 0
    else
      var body := lines[|lines| - 1].body;
      Anonymous(lines[..|lines| - 1]) + if IsCall(body) && body.event.toolCallId == "" then 1 else 0
  }

  /** The compact arguments of a call; an empty object when there are none. */
  function ArgsText(ev: Event): string {
    match (ev.input, ev.args)
    case (JsonArgs(text), _) => if text == "" then "{}" else text
    case (NoArgs, JsonArgs(text)) => if text == "" then "{}" else text
    case _ => "{}"
  }

  /** The id of a call: its own, or the next drawn one, or a spare when that is empty. */
  function IdOf(ev: Event, drawn: string, spare: string): string {
    if ev.toolCallId != "" then ev.toolCallId else if drawn != "" then drawn else spare
  }

  /** The calls of the lines in order: id, name and arguments. */
  function CallsIn(lines: seq<Line>, ids: nat -> string, spare: nat -> string): seq<(string, string, string)> {
    if lines == [] then []
    else
      var before, body := lines[..|lines| - 1], lines[|lines| - 1].body;
      var calls := CallsIn(before, ids, spare);
      if !IsCall(body) then calls
      else
        calls + [(IdOf(body.event, ids(Anonymous(before)), spare(|calls|)), body.event.toolName, ArgsText(body.event))]
  }

  // ---------- a reading and its lines ----------

  /** The reading of some lines that do not end the turn. */
  ghost predicate ReadAs(s: Scan, lines: seq<Line>, ids: nat -> string, spare: nat -> string) {
    && s.outcome.Running? && s.consumed == Bytes(lines) && s.drawn == Anonymous(lines)
    && Texts(s.pieces) == Words(TextDelta, lines) && Thoughts(s.pieces) == Words(ReasoningDelta, lines)
    && OpenAIToolCalls(Calls(s.pieces), spare) == CallsIn(lines, ids, spare)
  }

  lemma OnePiece(ps: seq<Piece>, p: Piece)
    ensures Texts(ps + [p]) == Texts(ps) + if p.Text? then p.text else ""
    ensures Thoughts(ps + [p]) == Thoughts(ps) + if p.Thought? then p.text else ""
    ensures Calls(ps + [p]) == Calls(ps) + if p.Call? then [p] else []
  {
    assert (ps + [p])[..|ps|] == ps;
  }

  lemma OneCall(calls: seq<Piece>, c: Piece, spare: nat -> string)
    requires c.Call? && forall x :: x in calls ==> x.Call?
    ensures forall x :: x in calls + [c] ==> x.Call?
    ensures OpenAIToolCalls(calls + [c], spare) ==
            OpenAIToolCalls(calls, spare)
            + [(if c.id == "" then spare(|calls|) else c.id, c.name, if c.args == "" then "{}" else c.args)]
  {
  }

  lemma WordsRead(s: Scan, ev: Event, ids: nat -> string, spare: nat -> string)
    requires s.outcome.Running? && (ev.kind.TextDelta? || ev.kind.ReasoningDelta?)
    ensures var s' := Interpret(s, ev, ids);
            && s' == s.(pieces := s'.pieces) && Calls(s'.pieces) == Calls(s.pieces)
            && Texts(s'.pieces) == Texts(s.pieces) + (if ev.kind.TextDelta? then WordsOf(ev) else "")
            && Thoughts(s'.pieces) == Thoughts(s.pieces) + (if ev.kind.ReasoningDelta? then WordsOf(ev) else "")
  {
    var p := if ev.kind.TextDelta? then Text(WordsOf(ev)) else Thought(WordsOf(ev));
    OnePiece(s.pieces, p);
  }

  lemma CallRead(s: Scan, ev: Event, ids: nat -> string, spare: nat -> string)
    requires s.outcome.Running? && ev.kind.ToolCalled? && GoodArgs(ev)
    ensures var s' := Interpret(s, ev, ids);
            && s' == s.(pieces := s'.pieces, drawn := s.drawn + if ev.toolCallId == "" then 1 else 0)
            && Texts(s'.pieces) == Texts(s.pieces) && Thoughts(s'.pieces) == Thoughts(s.pieces)
            && OpenAIToolCalls(Calls(s'.pieces), spare) ==
               OpenAIToolCalls(Calls(s.pieces), spare)
               + [(IdOf(ev, ids(s.drawn), spare(|Calls(s.pieces)|)), ev.toolName, ArgsText(ev))]
  {
    var id := if ev.toolCallId == "" then ids(s.drawn) else ev.toolCallId;
    var c := Call(id, ev.toolName, CallArgs(ev).text);
    OnePiece(s.pieces, c);
    OneCall(Calls(s.pieces), c, spare);
  }

  /** A quiet event, read on top of some lines. */
  lemma QuietRead(s: Scan, lines: seq<Line>, line: Line, ids: nat -> string, spare: nat -> string)
    requires ReadAs(s, lines, ids, spare) && line.body.Parsed? && Quiet(line.body)
    ensures ReadAs(Interpret(s.(consumed := Bytes(lines + [line])), line.body.event, ids), lines + [line], ids, spare)
  {
    OneLine(lines, line, ids, spare);
    var s' := s.(consumed := Bytes(lines + [line]));
    var ev := line.body.event;
    if ev.kind.ToolCalled? {
      CallRead(s', ev, ids, spare);
    } else if ev.kind.TextDelta? || ev.kind.ReasoningDelta? {
      WordsRead(s', ev, ids, spare);
    }
  }

  lemma OneLine(lines: seq<Line>, line: Line, ids: nat -> string, spare: nat -> string)
    ensures var body := line.body;
            && Bytes(lines + [line]) == Bytes(lines) + line.size + 1
            && (forall kind :: Words(kind, lines + [line]) == Words(kind, lines)
                 + if body.Parsed? && body.event.kind == kind then WordsOf(body.event) else "")
            && Anonymous(lines + [line]) == Anonymous(lines)
                 + (if IsCall(body) && body.event.toolCallId == "" then 1 else 0)
            && CallsIn(lines + [line], ids, spare) == CallsIn(lines, ids, spare)
                 + if !IsCall(body) then []
                   else [(IdOf(body.event, ids(Anonymous(lines)), spare(|CallsIn(lines, ids, spare)|)),
                          body.event.toolName, ArgsText(body.event))]
  {
    assert (lines + [line])[..|lines|] == lines;
  }

  lemma HarmlessStep(s: Scan, lines: seq<Line>, line: Line, lim: Limits, ids: nat -> string, spare: nat -> string)
    requires ReadAs(s, lines, ids, spare) && Fits(lines + [line], lim) && Quiet(line.body)
    ensures ReadAs(Advance(s, line, lim, ids), lines + [line], ids, spare)
  {
    OneMoreLine(lines, line);
    if line.body.Parsed? {
      QuietRead(s, lines, line, ids, spare);
    } else {
      OneLine(lines, line, ids, spare);
      assert ReadAs(s.(consumed := Bytes(lines + [line])), lines + [line], ids, spare);
    }
  }

  lemma {:induction false} HarmlessRead(lines: seq<Line>, lim: Limits, ids: nat -> string, spare: nat -> string)
    requires Harmless(lines, lim)
    ensures ReadAs(ScanAll(lines, lim, ids), lines, ids, spare)
  {
    if lines != [] {
      var before, line := lines[..|lines| - 1], lines[|lines| - 1];
      assert lines == before + [line];
      HarmlessRead(before, lim, ids, spare);
      HarmlessStep(ScanAll(before, lim, ids), before, line, lim, ids, spare);
    }
  }

  // ---------- the line that ends the turn ----------

  /** How a turn ends at its last line, which is the first that is not harmless. */
  function EndingAt(lines: seq<Line>, lim: Limits): Outcome
    requires lines != []
  {
    var body := lines[|lines| - 1].body;
    if !Fits(lines, lim) then Failed(TooLarge)
    else if !body.Parsed? then Failed(BadJson)
    else
      match body.event.kind
      case FinishEvent => Finished(FinishWord(body.event.finishReason), body.event.totalUsage)
      case ErrorEvent => Failed(UpstreamError(body.event.error))
      case AbortEvent => Failed(Aborted)
      case ToolCalled => Failed(BadArguments)
      case _ => Failed(MissingType)
  }

  /** "tool-calls" is sent as "tool_calls", "length" as it is, and every other reason as "stop". */
  function FinishWord(reason: string): string {
    if reason == "length" then "length" else if reason != "tool-calls" then "stop" else "tool_calls"
  }

  lemma EndingRead(before: seq<Line>, line: Line, lim: Limits, ids: nat -> string)
    requires Harmless(before, lim) && !Harmless(before + [line], lim)
    ensures var s := ScanAll(before + [line], lim, ids);
            s.outcome == EndingAt(before + [line], lim) && s.pieces == ScanAll(before, lim, ids).pieces
  {
    assert (before + [line])[..|before|] == before;
    HarmlessRead(before, lim, ids, ids);
    EndingStep(ScanAll(before, lim, ids), before, line, lim, ids);
  }

  lemma EndingStep(s: Scan, before: seq<Line>, line: Line, lim: Limits, ids: nat -> string)
    requires s.outcome.Running? && s.consumed == Bytes(before)
    requires !Fits(before + [line], lim) || !Quiet(line.body)
    ensures var s' := Advance(s, line, lim, ids);
            s'.outcome == EndingAt(before + [line], lim) && s'.pieces == s.pieces
  {
    OneMoreLine(before, line);
    assert Fits(before + [line], lim) <==> line.size <= lim.event && s.consumed + line.size + 1 <= lim.response;
    if Fits(before + [line], lim) && line.body.Parsed? { EndingEvent(s, line.body.event, before, line, lim, ids); }
  }

  lemma OneMoreLine(lines: seq<Line>, line: Line)
    ensures Bytes(lines + [line]) == Bytes(lines) + line.size + 1
  {
    assert (lines + [line])[..|lines|] == lines;
  }

  lemma EndingEvent(s: Scan, ev: Event, before: seq<Line>, line: Line, lim: Limits, ids: nat -> string)
    requires line.body == Parsed(ev) && !Quiet(line.body) && Fits(before + [line], lim)
    ensures var s' := Interpret(s.(consumed := s.consumed + line.size + 1), ev, ids);
            s'.outcome == EndingAt(before + [line], lim) && s'.pieces == s.pieces
  {
  }

  /** What a reading shows of the lines before its end. */
  ghost predicate Shows(s: Scan, before: seq<Line>, ids: nat -> string, spare: nat -> string) {
    && Texts(s.pieces) == Words(TextDelta, before) && Thoughts(s.pieces) == Words(ReasoningDelta, before)
    && OpenAIToolCalls(Calls(s.pieces), spare) == CallsIn(before, ids, spare)
  }

  lemma ReadingToEnd(before: seq<Line>, line: Line, after: seq<Line>, lim: Limits, ids: nat -> string,
                     spare: nat -> string)
    requires Harmless(before, lim) && !Harmless(before + [line], lim)
    ensures var s := ScanAll(before + [line] + after, lim, ids);
            s.outcome == EndingAt(before + [line], lim) && Shows(s, before, ids, spare)
  {
    HarmlessRead(before, lim, ids, spare);
    EndingRead(before, line, lim, ids);
    TerminalIsFinal(before + [line], after, lim, ids);
  }

  /** Where the turn ends in a list of lines. */
  lemma Cut(lines: seq<Line>, n: nat, lim: Limits)
    requires n == Stop(lines, lim)
    ensures Harmless(lines[..n], lim)
    ensures n == |lines| ==> lines[..n] == lines
    ensures n < |lines| ==>
              && lines[..n + 1] == lines[..n] + [lines[n]]
              && !Harmless(lines[..n] + [lines[n]], lim)
              && lines == lines[..n] + [lines[n]] + lines[n + 1..]
  {
    CutAt(lines, n);
  }

  lemma CutAt<T>(s: seq<T>, n: nat)
    requires n <= |s|
    ensures n == |s| ==> s[..n] == s
    ensures n < |s| ==> s[..n + 1] == s[..n] + [s[n]] && s == s[..n] + [s[n]] + s[n + 1..]
  {
    if n < |s| { assert s[..n + 1] == s[..n] + [s[n]]; }
  }

  /** The kind of line that ends a turn and the fault it gives; a finish line gives none. */
  ghost predicate EndsAs(fits: bool, body: Body, verdict: Option<Fault>) {
    && (!fits <==> verdict == Some(TooLarge))
    && (verdict.None? <==> fits && body.Parsed? && body.event.kind == FinishEvent)
    && (verdict == Some(BadJson) <==> fits && body == Malformed)
    && (verdict == Some(MissingType) <==> fits && body.Parsed? && body.event.kind == Untyped)
    && (verdict == Some(Aborted) <==> fits && body.Parsed? && body.event.kind == AbortEvent)
    && (verdict == Some(BadArguments) <==>
         fits && body.Parsed? && body.event.kind == ToolCalled && !GoodArgs(body.event))
    && (fits && body.Parsed? && body.event.kind == ErrorEvent <==> verdict.Some? && verdict.value.UpstreamError?)
    && (fits && body.Parsed? && body.event.kind == ErrorEvent ==> verdict == Some(UpstreamError(body.event.error)))
  }

  lemma EndingKinds(before: seq<Line>, line: Line, lim: Limits)
    requires Harmless(before, lim) && !Harmless(before + [line], lim)
    ensures var o := EndingAt(before + [line], lim);
            && !o.Running? && !(o.Failed? && o.fault.BadLimits?)
            && EndsAs(Fits(before + [line], lim), line.body, FaultOf(o))
  {
    assert (before + [line])[..|before|] == before;
  }

  lemma VerdictAtEnd(before: seq<Line>, line: Line, after: seq<Line>, readFailed: bool, lim: Limits,
                     ids: nat -> string)
    requires lim.event > 0 && lim.response > 0 && Harmless(before, lim) && !Harmless(before + [line], lim)
    ensures EndsAs(Fits(before + [line], lim), line.body, Verdict(before + [line] + after, readFailed, lim, ids))
  {
    ReadingToEnd(before, line, after, lim, ids, ids);
    EndingKinds(before, line, lim);
  }

  /** How reading ends, for every input: the first line that is not harmless decides, and which kind of
      line it is says how; without one the input was cut short. */
  lemma VerdictByLines(lines: seq<Line>, n: nat, readFailed: bool, lim: Limits, ids: nat -> string)
    requires lim.event > 0 && lim.response > 0 && n == Stop(lines, lim)
    ensures var verdict := Verdict(lines, readFailed, lim, ids);
            if n == |lines| then verdict == Some(if readFailed then ReadFailed else Truncated)
            else EndsAs(Fits(lines[..n + 1], lim), lines[n].body, verdict)
  {
    Cut(lines, n, lim);
    if n < |lines| {
      VerdictAtEnd(lines[..n], lines[n], lines[n + 1..], readFailed, lim, ids);
    } else {
      HarmlessRead(lines, lim, ids, ids);
    }
  }

  /** What a client of any turn has at the end, from the stream: the words of the text lines, the
      words of the reasoning lines and the calls of the call lines by index, all of them from before
      the line that ends the turn; and the finish reason and usage of that line when it is a finish
      line, or neither. */
  lemma MessageByLines(h: Header, lines: seq<Line>, n: nat, readFailed: bool, lim: Limits, ids: nat -> string,
                       spare: nat -> string)
    requires lim.event > 0 && lim.response > 0 && n == Stop(lines, lim)
    ensures var m := Fold(BLANK, Wanted(Some(h), lines, lim, ids, spare));
            var calls := CallsIn(lines[..n], ids, spare);
            && m.content == Words(TextDelta, lines[..n])
            && m.reasoning == Words(ReasoningDelta, lines[..n])
            && m.calls == (map i: nat | i < |calls| :: calls[i])
            && if Verdict(lines, readFailed, lim, ids).None? then
                 && n < |lines| && lines[n].body.Parsed? && lines[n].body.event.kind == FinishEvent
                 && m.finish == Some(FinishWord(lines[n].body.event.finishReason))
                 && m.usage == Some(UsageByLine(lines[n].body.event.totalUsage))
               else m.finish.None? && m.usage.None?
  {
    Cut(lines, n, lim);
    var s := ScanAll(lines, lim, ids);
    if n < |lines| {
      ReadingToEnd(lines[..n], lines[n], lines[n + 1..], lim, ids, spare);
    } else {
      HarmlessRead(lines, lim, ids, spare);
    }
    MessageShown(h, s, lines[..n], ids, spare);
    if s.outcome.Finished? {
      EndingFinish(lines[..n], lines[n], lim);
      UsageRead(s.outcome.usage);
    }
  }

  lemma EndingFinish(before: seq<Line>, line: Line, lim: Limits)
    requires EndingAt(before + [line], lim).Finished?
    ensures line.body.Parsed? && line.body.event.kind == FinishEvent
    ensures EndingAt(before + [line], lim)
            == Finished(FinishWord(line.body.event.finishReason), line.body.event.totalUsage)
  {
  }

  lemma MessageShown(h: Header, s: Scan, before: seq<Line>, ids: nat -> string, spare: nat -> string)
    requires Shows(s, before, ids, spare)
    ensures var calls := CallsIn(before, ids, spare);
            var o := s.outcome;
            Fold(BLANK, Emitted(h, s, spare))
            == Message(Words(TextDelta, before), Words(ReasoningDelta, before),
                       map i: nat | i < |calls| :: calls[i],
                       if o.Finished? then Some(o.finish) else None,
                       if o.Finished? then Some(UsageOf(o.usage)) else None)
  {
    if s.outcome.Finished? {
      FoldEmitted(h, s, spare);
    } else {
      FoldPieces(h, s.pieces, spare);
      assert Emitted(h, s, spare) == PieceFrames(h, s.pieces, spare);
    }
  }

  /** Tokens in as prompt, tokens out as completion, their wrapped sum as total, and the cached ones
      when there are any; zeros without a usage. */
  function UsageByLine(u: Option<Usage>): UsageOut {
    match u
    case None => UsageOut(0, 0, 0, None)
    case Some(Usage(input, output, cacheRead, _)) =>
      UsageOut(input, output, Add64(input, output), if cacheRead > 0 then Some(cacheRead) else None)
  }

  lemma UsageRead(u: Option<Usage>)
    ensures UsageOf(u) == UsageByLine(u)
  {
  }

  /** The buffered response of a turn that ends well: under the model asked for, with the words of the
      text lines, and with reasoning and calls only if there are any. */
  lemma ResponseByLines(model: string, lines: seq<Line>, n: nat, readFailed: bool, lim: Limits, ids: nat -> string,
                        spare: nat -> string)
    requires Verdict(lines, readFailed, lim, ids).None? && n == Stop(lines, lim)
    ensures var a := Accumulation(false, ScanAll(lines, lim, ids));
            (forall c :: c in a.toolCalls ==> c.Call?)
            && var r := ToOpenAIResponse(a, model, spare);
               var thoughts, calls := Words(ReasoningDelta, lines[..n]), CallsIn(lines[..n], ids, spare);
               && r.model == model && r.content == Words(TextDelta, lines[..n])
               && r.reasoning == (if thoughts == "" then None else Some(thoughts))
               && r.toolCalls == (if calls == [] then None else Some(calls))
               && n < |lines| && lines[n].body.Parsed?
               && r.finish == FinishWord(lines[n].body.event.finishReason)
               && r.usage == UsageByLine(lines[n].body.event.totalUsage)
  {
    Cut(lines, n, lim);
    var s := ScanAll(lines, lim, ids);
    if n == |lines| { HarmlessRead(lines, lim, ids, spare); }
    ReadingToEnd(lines[..n], lines[n], lines[n + 1..], lim, ids, spare);
    EndingFinish(lines[..n], lines[n], lim);
    ResponseShown(model, s, lines[..n], ids, spare);
    UsageRead(s.outcome.usage);
  }

  lemma ResponseShown(model: string, s: Scan, before: seq<Line>, ids: nat -> string, spare: nat -> string)
    requires s.outcome.Finished? && Shows(s, before, ids, spare)
    ensures var a := Accumulation(false, s);
            (forall c :: c in a.toolCalls ==> c.Call?)
            && var r := ToOpenAIResponse(a, model, spare);
               var thoughts, calls := Words(ReasoningDelta, before), CallsIn(before, ids, spare);
               && r.model == model && r.content == Words(TextDelta, before)
               && r.reasoning == (if thoughts == "" then None else Some(thoughts))
               && r.toolCalls == (if calls == [] then None else Some(calls))
               && r.finish == s.outcome.finish && r.usage == UsageOf(s.outcome.usage)
  {
    AccumulateMeans(false, s.pieces);
  }
}
