/** What a turn is: the meaning of a sequence of NDJSON lines, before any output format.

    A line arrives as its byte length and what parsing made of it. `Scan` is the reading of the
    lines so far: the visible pieces of the answer in order, and how the turn stands. Both modes of
    the decoder (go/event_decoder.go) are proved to follow this one reading. */
module Turns {
  import opened Wrappers

  datatype Usage = Usage(input: int, output: int, cacheRead: int, cacheWrite: int)

  /** Raw tool arguments: absent, not valid JSON, or their compact form. */
  datatype Args = NoArgs | BadArgs | JsonArgs(text: string)

  /** The event types the decoder tells apart; Untyped is a missing or empty type. */
  datatype Kind =
    | Untyped | TextDelta | ReasoningDelta | ReasoningStart | ReasoningEnd | ToolCalled
    | FinishEvent | ErrorEvent | AbortEvent | OtherKind

  datatype Event = Event(
    kind: Kind, text: string, delta: string,
    toolName: string, toolCallId: string, input: Args, args: Args,
    finishReason: string, totalUsage: Option<Usage>, error: string)

  datatype Body = Blank | Malformed | Parsed(event: Event)
  datatype Line = Line(size: nat, body: Body)

  datatype Fault =
    | TooLarge | BadJson | MissingType | BadArguments | UpstreamError(message: string) | Aborted   // from a line
    | Truncated | ReadFailed | BadLimits | EmitFailed                                              // from the stream

  datatype Piece = Text(text: string) | Thought(text: string) | Call(id: string, name: string, args: string)
  datatype Outcome = Running | Finished(finish: string, usage: Option<Usage>) | Failed(fault: Fault)
  datatype Scan = Scan(consumed: int, drawn: nat, pieces: seq<Piece>, outcome: Outcome)

  datatype Limits = Limits(event: int, response: int)

  const START := Scan(0, 0, [], Running)

  function EventText(ev: Event): string {
    if ev.text != "" then ev.text else ev.delta
  }

  function MapFinishReason(reason: string): string {
    if reason == "tool-calls" then "tool_calls" else if reason == "length" then "length" else "stop"
  }

  /** Arguments of a tool call: input, else args, else an empty object. */
  function CallArgs(ev: Event): Args {
    if !ev.input.NoArgs? then ev.input else if !ev.args.NoArgs? then ev.args else JsonArgs("{}")
  }

  /** A tool call. One without an id draws one, even when its arguments then fail it. */
  function InterpretCall(s: Scan, ev: Event, ids: nat -> string): Scan {
    var drew := ev.toolCallId == "";
    var id := if drew then ids(s.drawn) else ev.toolCallId;
    var s' := if drew then s.(drawn := s.drawn + 1) else s;
    var args := CallArgs(ev);
    if args.JsonArgs? then s'.(pieces := s.pieces + [Call(id, ev.toolName, args.text)])
    else s'.(outcome := Failed(BadArguments))
  }

  /** One accepted, parsed event. `ids` is the source of ids for calls that come without one. */
  function Interpret(s: Scan, ev: Event, ids: nat -> string): Scan {
    match ev.kind
    case Untyped => s.(outcome := Failed(MissingType))
    case TextDelta => if EventText(ev) == "" then s else s.(pieces := s.pieces + [Text(EventText(ev))])
    case ReasoningDelta => if EventText(ev) == "" then s else s.(pieces := s.pieces + [Thought(EventText(ev))])
    case ToolCalled => InterpretCall(s, ev, ids)
    case FinishEvent => s.(outcome := Finished(MapFinishReason(ev.finishReason), ev.totalUsage))
    case ErrorEvent => s.(outcome := Failed(UpstreamError(ev.error)))
    case AbortEvent => s.(outcome := Failed(Aborted))
    case ReasoningStart | ReasoningEnd | OtherKind => s
  }

  /** One more line. A finished or failed turn reads nothing more. */
  function Advance(s: Scan, line: Line, lim: Limits, ids: nat -> string): Scan {
    if !s.outcome.Running? then s
    else
      var s' := s.(consumed := s.consumed + line.size + 1);
      if line.size > lim.event || s'.consumed > lim.response then s'.(outcome := Failed(TooLarge))
      else match line.body
        case Blank => s'
        case Malformed => s'.(outcome := Failed(BadJson))
        case Parsed(ev) => Interpret(s', ev, ids)
  }

  function ScanAll(lines: seq<Line>, lim: Limits, ids: nat -> string): Scan {
    if lines == [] then START
    else Advance(ScanAll(lines[..|lines| - 1], lim, ids), lines[|lines| - 1], lim, ids)
  }

  /** End of input: a turn still running was cut short. */
  function AtEnd(s: Scan): Scan {
    if s.outcome.Running? then s.(outcome := Failed(Truncated)) else s
  }

  /** How reading the whole input ends; None is success. */
  function Verdict(lines: seq<Line>, readFailed: bool, lim: Limits, ids: nat -> string): Option<Fault> {
    if lim.event <= 0 || lim.response <= 0 then Some(BadLimits)
    else
      match ScanAll(lines, lim, ids).outcome
      case Finished(_, _) => None
      case Failed(fault) => Some(fault)
      case Running => Some(if readFailed then ReadFailed else Truncated)
  }

  // ---------- the pieces by kind ----------

  function Texts(ps: seq<Piece>): string {
    if ps == [] then ""
    else Texts(ps[..|ps| - 1]) + if ps[|ps| - 1].Text? then ps[|ps| - 1].text else ""
  }

  function Thoughts(ps: seq<Piece>): string {
    if ps == [] then ""
    else Thoughts(ps[..|ps| - 1]) + if ps[|ps| - 1].Thought? then ps[|ps| - 1].text else ""
  }

  function Calls(ps: seq<Piece>): (calls: seq<Piece>)
    ensures forall c :: c in calls ==> c.Call?
  {
    if ps == [] then []
    else Calls(ps[..|ps| - 1]) + if ps[|ps| - 1].Call? then [ps[|ps| - 1]] else []
  }

  // ---------- terminal lines end the reading ----------

  /** Lines after the first terminal one do not matter. */
  lemma {:induction false} TerminalIsFinal(lines: seq<Line>, more: seq<Line>, lim: Limits, ids: nat -> string)
    requires !ScanAll(lines, lim, ids).outcome.Running?
    ensures ScanAll(lines + more, lim, ids) == ScanAll(lines, lim, ids)
  {
    if more == [] {
      assert lines + more == lines;
    } else {
      TerminalIsFinal(lines, more[..|more| - 1], lim, ids);
      assert (lines + more)[..|lines + more| - 1] == lines + more[..|more| - 1];
    }
  }

  lemma {:induction false} ScanBounds(lines: seq<Line>, lim: Limits, ids: nat -> string)
    requires forall n :: ids(n) != ""
    ensures var s := ScanAll(lines, lim, ids);
            && |s.pieces| <= |lines|
            && (s.outcome.Finished? ==> |s.pieces| < |lines|)
            && (forall k :: 0 <= k < |s.pieces| ==> s.pieces[k].Call? || s.pieces[k].text != "")
            && (forall k :: 0 <= k < |s.pieces| && s.pieces[k].Call? ==> s.pieces[k].id != "")
  {
    if lines != [] { ScanBounds(lines[..|lines| - 1], lim, ids); }
  }
}
