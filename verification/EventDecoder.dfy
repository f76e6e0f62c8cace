/** The NDJSON decoder of go/event_decoder.go with the event folding of go/response.go, as an object, and
    the host's side of one stream. `scan` is the reading of the lines pushed so far. */
module Decoding {
  import opened Wrappers
  import opened Turns
  import opened Rendering

  /** What becomes of a frame: the host takes it, the host refuses it, or the stream's context was
      already cancelled and the host is not called. */
  datatype Reply = Taken | Refused | Cancelled

  /** The host's side of one stream: the frames it was called with and the close messages it got.
      The k-th frame meets `replies(k)`. Frames may come only before the close. */
  class Sink {
    ghost var emits: seq<Frame>
    ghost var closes: seq<Option<Fault>>
    var count: nat
    const replies: nat -> Reply

    constructor (replies: nat -> Reply)
      ensures emits == [] && closes == [] && count == 0 && this.replies == replies
    {
      this.replies := replies;
      emits, closes, count := [], [], 0;
    }

    method Emit(f: Frame) returns (ok: bool)
      requires closes == []
      modifies this`emits, this`count
      ensures count == old(count) + 1 && ok == replies(old(count)).Taken?
      ensures emits == old(emits) + if replies(old(count)).Cancelled? then [] else [f]
    {
      var reply := replies(count);
      ok := reply.Taken?;
      emits, count := emits + (if reply.Cancelled? then [] else [f]), count + 1;
    }

    method Close(message: Option<Fault>)
      modifies this`closes
      ensures closes == old(closes) + [message]
    {
      closes := closes + [message];
    }
  }

  function FaultOf(o: Outcome): Option<Fault> {
    if o.Failed? then Some(o.fault) else None
  }

  /** The host takes n frames in a row, starting at attempt `from`. */
  predicate Takes(replies: nat -> Reply, from: nat, n: nat)
    decreases n
  {
    n == 0 || (replies(from).Taken? && Takes(replies, from + 1, n - 1))
  }

  /** How many of n frames the host is called with: those it takes, and the one it refuses. */
  function Reach(replies: nat -> Reply, from: nat, n: nat): (reach: nat)
    ensures reach <= n && (Takes(replies, from, n) ==> reach == n)
    decreases n
  {
    if n == 0 || replies(from).Cancelled? then 0
    else if replies(from).Refused? then 1
    else 1 + Reach(replies, from + 1, n - 1)
  }

  lemma {:induction false} ReachSplit(replies: nat -> Reply, from: nat, m: nat, n: nat)
    ensures Takes(replies, from, m + n) == (Takes(replies, from, m) && Takes(replies, from + m, n))
    ensures Reach(replies, from, m + n) ==
            if Takes(replies, from, m) then m + Reach(replies, from + m, n) else Reach(replies, from, m)
    decreases m
  {
    if m != 0 && replies(from).Taken? { ReachSplit(replies, from + 1, m - 1, n); }
  }

  /** The frames the host is called with when offered these. */
  function Offer(replies: nat -> Reply, from: nat, frames: seq<Frame>): (offered: seq<Frame>)
    ensures Takes(replies, from, |frames|) ==> offered == frames
  {
    frames[..Reach(replies, from, |frames|)]
  }

  /** The frame of the piece by which ps' extends ps; none in buffered mode or without such a piece. */
  ghost function NewFrames(framer: Option<Header>, ps: seq<Piece>, ps': seq<Piece>, spare: nat -> string): seq<Frame> {
    if framer.None? || |ps'| <= |ps| then []
    else [DeltaFrame(framer.value, ps == [], PieceDelta(ps'[|ps|], |Calls(ps)|, spare))]
  }

  /** What has been sent for a reading: nothing in buffered mode. */
  ghost function SentFor(framer: Option<Header>, s: Scan, spare: nat -> string): seq<Frame> {
    if framer.None? then [] else Emitted(framer.value, s, spare)
  }

  ghost function EndFor(framer: Option<Header>, s: Scan): seq<Frame> {
    if framer.None? then [] else EndFrames(framer.value, s)
  }

  /** A reading that goes on by at most one piece. */
  predicate Extends(s: Scan, s': Scan) {
    s'.pieces == s.pieces
    || (s'.outcome.Running? && |s'.pieces| == |s.pieces| + 1 && s'.pieces[..|s.pieces|] == s.pieces)
  }

  lemma EventExtends(s: Scan, ids: nat -> string, ev: Event)
    requires s.outcome.Running?
    ensures Extends(s, Interpret(s, ev, ids))
  {
  }

  /** What one step sends: the frame of what it shows and, when it finishes the turn, the end. */
  lemma StepSends(framer: Option<Header>, s: Scan, s': Scan, spare: nat -> string)
    requires s.outcome.Running? && Extends(s, s')
    ensures var more := NewFrames(framer, s.pieces, s'.pieces, spare) + EndFor(framer, s');
            SentFor(framer, s', spare) == SentFor(framer, s, spare) + more && (s'.outcome.Failed? ==> more == [])
  {
  }

  /** The sink has been offered exactly `sent` since attempt c, and took all of it. */
  ghost predicate Took(sink: Sink, c: nat, before: seq<Frame>, sent: seq<Frame>)
    reads sink
  {
    sink.emits == before + sent && sink.count == c + |sent| && Takes(sink.replies, c, |sent|)
  }

  /** The sink rejected one of `sent`, offered since attempt c, and was offered nothing after it. */
  ghost predicate Balked(sink: Sink, c: nat, before: seq<Frame>, sent: seq<Frame>)
    reads sink
  {
    sink.emits == before + Offer(sink.replies, c, sent) && !Takes(sink.replies, c, |sent|)
  }

  /** How the delivery of `sent` to an open sink, if there is one, stands. */
  ghost predicate Delivery(sink: Sink?, c: nat, before: seq<Frame>, sent: seq<Frame>, rejected: bool)
    reads sink
  {
    if sink == null then !rejected
    else sink.closes == [] && if rejected then Balked(sink, c, before, sent) else Took(sink, c, before, sent)
  }

  /** A rejection among the first frames is the rejection of the whole. */
  lemma BalkedEarly(sink: Sink, c: nat, before: seq<Frame>, sent: seq<Frame>, all: seq<Frame>)
    requires Balked(sink, c, before, sent) && sent <= all
    ensures Balked(sink, c, before, all)
  {
    ReachSplit(sink.replies, c, |sent|, |all| - |sent|);
  }

  lemma BalkedDelivery(sink: Sink?, c: nat, before: seq<Frame>, sent: seq<Frame>, all: seq<Frame>)
    requires Delivery(sink, c, before, sent, true) && sent <= all
    ensures Delivery(sink, c, before, all, true)
  {
    BalkedEarly(sink, c, before, sent, all);
  }

  /** The emit loop of Consume: after `sent`, offer these frames until one is rejected. */
  method EmitAll(sink: Sink, frames: seq<Frame>, ghost c: nat, ghost before: seq<Frame>, ghost sent: seq<Frame>)
    returns (ok: bool)
    requires Took(sink, c, before, sent) && sink.closes == []
    modifies sink`emits, sink`count
    ensures if ok then Took(sink, c, before, sent + frames) else Balked(sink, c, before, sent + frames)
  {
    var i := 0;
    assert sent + frames[..0] == sent;
    while i < |frames|
      invariant 0 <= i <= |frames| && Took(sink, c, before, sent + frames[..i])
    {
      ghost var next := sent + frames[..i + 1];
      assert next == sent + frames[..i] + [frames[i]];
      ReachSplit(sink.replies, c, |sent| + i, 1);
      var accepted := sink.Emit(frames[i]);
      if !accepted {
        BalkedEarly(sink, c, before, next, sent + frames);
        return false;
      }
      i := i + 1;
    }
    assert frames[..|frames|] == frames;
    ok := true;
  }

  lemma AdvanceTo(lines: seq<Line>, i: nat, lim: Limits, ids: nat -> string)
    requires i < |lines|
    ensures ScanAll(lines[..i + 1], lim, ids) == Advance(ScanAll(lines[..i], lim, ids), lines[i], lim, ids)
  {
    assert lines[..i + 1][..i] == lines[..i];
  }

  lemma AdvanceSends(framer: Option<Header>, s: Scan, line: Line, lim: Limits, ids: nat -> string, spare: nat -> string)
    ensures SentFor(framer, s, spare) <= SentFor(framer, Advance(s, line, lim, ids), spare)
  {
    if s.outcome.Running? {
      AdvanceExtends(s, line, lim, ids);
      StepSends(framer, s, Advance(s, line, lim, ids), spare);
    }
  }

  lemma AdvanceExtends(s: Scan, line: Line, lim: Limits, ids: nat -> string)
    requires s.outcome.Running?
    ensures Extends(s, Advance(s, line, lim, ids))
  {
    if line.body.Parsed? { EventExtends(s.(consumed := s.consumed + line.size + 1), ids, line.body.event); }
  }

  /** What is sent for a prefix of the lines is a prefix of what is sent for all of them; and when
      the prefix ends the turn, it is all of it. */
  lemma {:induction false} RestFollows(framer: Option<Header>, lines: seq<Line>, i: nat, lim: Limits,
                                       ids: nat -> string, spare: nat -> string)
    requires i <= |lines|
    ensures SentFor(framer, ScanAll(lines[..i], lim, ids), spare) <= SentFor(framer, ScanAll(lines, lim, ids), spare)
    ensures !ScanAll(lines[..i], lim, ids).outcome.Running? ==>
            ScanAll(lines, lim, ids) == ScanAll(lines[..i], lim, ids)
    decreases |lines| - i
  {
    if i == |lines| {
      assert lines[..i] == lines;
    } else {
      AdvanceTo(lines, i, lim, ids);
      AdvanceSends(framer, ScanAll(lines[..i], lim, ids), lines[i], lim, ids, spare);
      RestFollows(framer, lines, i + 1, lim, ids, spare);
    }
  }

  /** The frames a sink that takes everything is offered for these lines. */
  ghost function Wanted(framer: Option<Header>, lines: seq<Line>, lim: Limits, ids: nat -> string,
                        spare: nat -> string): seq<Frame> {
    if lim.event <= 0 || lim.response <= 0 then [] else SentFor(framer, ScanAll(lines, lim, ids), spare)
  }

  class EventDecoder {
    var acc: Accumulated
    var framer: Option<Header>   // streaming mode
    var sentRole: bool
    var tools: nat
    var done: bool
    var fatal: Option<Fault>
    var consumed: int
    var drawn: nat               // ids taken from newID
    const lim: Limits
    const ids: nat -> string
    const spare: nat -> string
    ghost var scan: Scan
    ghost var pieces: seq<Piece>

    /** The accumulator and the framer hold what the pieces say. */
    ghost predicate Holds()
      reads this`acc, this`framer, this`sentRole, this`tools, this`pieces
    {
      && acc == Accumulate(framer.Some?, pieces)
      && (framer.Some? ==> tools == |Calls(pieces)| && sentRole == (pieces != []))
    }

    /** The fields are what the reading says. */
    ghost predicate Valid()
      reads this
    {
      && pieces == scan.pieces && consumed == scan.consumed && drawn == scan.drawn
      && done == scan.outcome.Finished?
      && fatal == FaultOf(scan.outcome)
      && acc == Concluded(Accumulate(framer.Some?, pieces), scan.outcome)
      && (framer.Some? ==> tools == |Calls(pieces)| && sentRole == (pieces != [] || done))
    }

    constructor (framer: Option<Header>, lim: Limits, ids: nat -> string, spare: nat -> string)
      ensures Valid() && scan == START && this.framer == framer
      ensures this.lim == lim && this.ids == ids && this.spare == spare
    {
      acc := Accumulated(framer.Some?, false, "", "", [], "", Usage(0, 0, 0, 0), false);
      this.framer, sentRole, tools := framer, false, 0;
      done, fatal, consumed, drawn := false, None, 0, 0;
      this.lim, this.ids, this.spare := lim, ids, spare;
      scan, pieces := START, [];
    }

    ghost function Sent(): seq<Frame>
      reads this
    {
      SentFor(framer, scan, spare)
    }

    /** emit inside applyEvent: the frame for a delta, with the role when it is the first. */
    method EmitDelta(delta: Delta) returns (frames: seq<Frame>)
      modifies this`sentRole
      ensures framer.None? ==> frames == [] && sentRole == old(sentRole)
      ensures framer.Some? ==> frames == [DeltaFrame(framer.value, !old(sentRole), delta)] && sentRole
    {
      if framer.None? { return []; }
      frames := [DeltaFrame(framer.value, !sentRole, delta)];
      sentRole := true;
    }

    /** What an accumulator does with a visible piece. */
    method Keep(p: Piece)
      modifies this`acc
      ensures acc == Kept(old(acc), p)
    {
      acc := acc.(seenContent := true);
      if !acc.discard {
        match p
        case Text(t) => acc := acc.(text := acc.text + t);
        case Thought(t) => acc := acc.(reasoning := acc.reasoning + t);
        case Call(_, _, _) => acc := acc.(toolCalls := acc.toolCalls + [p]);
      }
    }

    /** A visible piece: kept unless discarding, and framed when streaming. */
    method Show(p: Piece) returns (frames: seq<Frame>)
      requires Holds()
      modifies this`acc, this`sentRole, this`tools, this`pieces
      ensures Holds() && pieces == old(pieces) + [p]
      ensures frames == NewFrames(framer, old(pieces), pieces, spare)
    {
      ghost var more := pieces + [p];
      OneMore(framer.Some?, pieces, p);
      Keep(p);
      assert acc == Accumulate(framer.Some?, more);
      frames := EmitDelta(PieceDelta(p, tools, spare));
      if framer.Some? && p.Call? { tools := tools + 1; }
      pieces := more;
    }

    /** A tool-call event: its id or else the next one from newID, its arguments, and the fault when
        they are not JSON. */
    method ApplyCall(ev: Event, ghost s: Scan) returns (frames: seq<Frame>, fault: Option<Fault>)
      requires Holds() && s.outcome.Running? && s.pieces == pieces && s.drawn == drawn
      modifies this`acc, this`sentRole, this`tools, this`drawn, this`pieces
      ensures var r := InterpretCall(s, ev, ids);
              Holds() && pieces == r.pieces && drawn == r.drawn && fault == FaultOf(r.outcome)
      ensures frames == NewFrames(framer, s.pieces, pieces, spare)
    {
      var input := ev.input;
      if input.NoArgs? { input := ev.args; }
      if input.NoArgs? { input := JsonArgs("{}"); }
      var id := ev.toolCallId;
      if id == "" {
        id := ids(drawn);
        drawn := drawn + 1;
      }
      if input.BadArgs? { return [], Some(BadArguments); }
      frames := Show(Call(id, ev.toolName, input.text));
      fault := None;
    }

    /** A finish event: the reason and, when it came along, the usage. */
    method ApplyFinish(ev: Event)
      modifies this`acc
      ensures acc == Concluded(old(acc), Finished(MapFinishReason(ev.finishReason), ev.totalUsage))
    {
      acc := acc.(finish := MapFinishReason(ev.finishReason));
      if ev.totalUsage.Some? {
        acc := acc.(usage := ev.totalUsage.value, hasUsage := true);
      }
    }

    /** applyEvent: frames, whether the turn finished, and the fault that ends it. */
    method ApplyEvent(ev: Event, ghost s: Scan) returns (frames: seq<Frame>, finished: bool, fault: Option<Fault>)
      requires Holds() && s.outcome.Running? && s.pieces == pieces && s.drawn == drawn && !ev.kind.Untyped?
      modifies this`acc, this`sentRole, this`tools, this`drawn, this`pieces
      ensures var r := Interpret(s, ev, ids);
              && pieces == r.pieces && drawn == r.drawn
              && finished == r.outcome.Finished? && fault == FaultOf(r.outcome)
              && (if finished then acc == Concluded(Accumulate(framer.Some?, pieces), r.outcome) else Holds())
      ensures framer.Some? ==> tools == |Calls(pieces)| && sentRole == (pieces != [])
      ensures frames == NewFrames(framer, s.pieces, pieces, spare)
    {
      frames, finished, fault := [], false, None;
      if ev.kind.TextDelta? {
        var text := EventText(ev);
        if text != "" { frames := Show(Text(text)); }
      } else if ev.kind.ReasoningDelta? {
        var text := EventText(ev);
        if text != "" { frames := Show(Thought(text)); }
      } else if ev.kind.ToolCalled? {
        frames, fault := ApplyCall(ev, s);
      } else if ev.kind.FinishEvent? {
        ApplyFinish(ev);
        finished := true;
      } else if ev.kind.ErrorEvent? {
        fault := Some(UpstreamError(ev.error));
      } else if ev.kind.AbortEvent? {
        fault := Some(Aborted);
      }
    }

    /** The end of push once the event finished the turn: a bare role when nothing was sent, then
        the final frame. */
    method Conclude() returns (frames: seq<Frame>)
      requires scan.outcome.Finished? && pieces == scan.pieces
      requires acc == Concluded(Accumulate(framer.Some?, pieces), scan.outcome)
      requires framer.Some? ==> sentRole == (pieces != [])
      modifies this`sentRole, this`done
      ensures done && (framer.Some? ==> sentRole)
      ensures frames == EndFor(framer, scan)
    {
      done := true;
      frames := [];
      if framer.Some? {
        AccumulateMeans(true, pieces);
        if !sentRole { frames := EmitDelta(NoDelta); }
        frames := frames + [FinalFrame(framer.value, acc.finish, OpenAIUsage(acc))];
      }
    }

    /** The part of push that comes before the event is applied: the fault of an unacceptable line. */
    method Admit(line: Line) returns (fault: Option<Fault>)
      requires Valid() && scan.outcome.Running?
      modifies this`consumed, this`scan
      ensures scan == old(scan).(consumed := consumed) && consumed == old(consumed) + line.size + 1
      ensures Advance(old(scan), line, lim, ids) ==
              if fault.Some? then scan.(outcome := Failed(fault.value))
              else if line.body.Parsed? then Interpret(scan, line.body.event, ids)
              else scan
      ensures fault.None? ==> line.body.Blank? || (line.body.Parsed? && !line.body.event.kind.Untyped?)
    {
      consumed := consumed + line.size + 1;
      scan := scan.(consumed := consumed);
      if line.size > lim.event || consumed > lim.response { return Some(TooLarge); }
      if line.body.Blank? { return None; }
      if line.body.Malformed? { return Some(BadJson); }
      if line.body.event.kind.Untyped? { return Some(MissingType); }
      fault := None;
    }

    lemma InterpretKeepsConsumed(s: Scan, ev: Event)
      ensures Interpret(s, ev, ids).consumed == s.consumed
    {
    }

    /** The end of push, after an event that led to the reading `next`: its fault or its finish is
        noted, and a finish sends the end of the stream. */
    method Settle(ghost next: Scan, finished: bool, fault: Option<Fault>) returns (end: seq<Frame>)
      requires !done && pieces == next.pieces && consumed == next.consumed && drawn == next.drawn
      requires finished == next.outcome.Finished? && fault == FaultOf(next.outcome)
      requires acc == Concluded(Accumulate(framer.Some?, pieces), next.outcome)
      requires framer.Some? ==> tools == |Calls(pieces)| && sentRole == (pieces != [])
      modifies this`sentRole, this`scan, this`done, this`fatal
      ensures Valid() && scan == next && end == EndFor(framer, scan)
    {
      fatal := fault;
      scan := next;
      end := [];
      if finished { end := Conclude(); }
    }

    /** The part of push that applies an accepted event. */
    method Accept(ev: Event) returns (frames: seq<Frame>, finished: bool, fault: Option<Fault>)
      requires Valid() && scan.outcome.Running? && !ev.kind.Untyped?
      modifies this`acc, this`sentRole, this`tools, this`drawn, this`pieces, this`scan, this`done, this`fatal
      ensures Valid() && scan == Interpret(old(scan), ev, ids)
      ensures finished == scan.outcome.Finished? && fault == FaultOf(scan.outcome)
      ensures frames == NewFrames(framer, old(pieces), pieces, spare) + EndFor(framer, scan)
    {
      InterpretKeepsConsumed(scan, ev);
      frames, finished, fault := ApplyEvent(ev, scan);
      var end := Settle(Interpret(scan, ev, ids), finished, fault);
      frames := frames + end;
    }

    /** push: the frames of one line, whether the turn is done, and the fault if it failed. */
    method Push(line: Line) returns (frames: seq<Frame>, finished: bool, fault: Option<Fault>)
      requires Valid()
      modifies this`acc, this`sentRole, this`tools, this`drawn, this`pieces, this`scan, this`done, this`fatal,
              this`consumed
      ensures Valid() && scan == Advance(old(scan), line, lim, ids)
      ensures finished == scan.outcome.Finished? && fault == FaultOf(scan.outcome)
      ensures Sent() == old(Sent()) + frames && (fault.Some? ==> frames == [])
    {
      if fatal.Some? { return [], false, fatal; }
      if done { return [], true, None; }
      fault := Admit(line);
      if fault.Some? {
        fatal := fault;
        scan := scan.(outcome := Failed(fault.value));
        return [], false, fault;
      }
      if line.body.Blank? { return [], false, None; }
      EventExtends(scan, ids, line.body.event);
      StepSends(framer, scan, Interpret(scan, line.body.event, ids), spare);
      frames, finished, fault := Accept(line.body.event);
    }

    /** finish: end of input before any terminal event is a truncated turn. */
    method Finish() returns (fault: Option<Fault>)
      requires Valid()
      modifies this`fatal, this`scan
      ensures Valid() && scan == AtEnd(old(scan)) && fault == FaultOf(scan.outcome)
    {
      if fatal.Some? { return fatal; }
      if done { return None; }
      fatal := Some(Truncated);
      scan := scan.(outcome := Failed(Truncated));
      fault := fatal;
    }

    /** One turn of the scanner loop: push the line, then emit its frames. */
    method ReadLine(line: Line, sink: Sink?, ghost c: nat, ghost before: seq<Frame>)
      returns (finished: bool, rejected: bool, fault: Option<Fault>)
      requires Valid() && Delivery(sink, c, before, Sent(), false)
      modifies this`acc, this`sentRole, this`tools, this`drawn, this`pieces, this`scan, this`done, this`fatal,
              this`consumed, sink
      ensures Valid() && scan == Advance(old(scan), line, lim, ids)
      ensures finished == scan.outcome.Finished? && fault == FaultOf(scan.outcome)
      ensures Delivery(sink, c, before, Sent(), rejected)
    {
      ghost var sent := Sent();
      var frames;
      frames, finished, fault := Push(line);
      rejected := false;
      if fault.Some? { return; }
      if sink != null {
        var ok := EmitAll(sink, frames, c, before, sent);
        rejected := !ok;
      }
    }

    /** The scanner loop: lines until one ends the turn or a frame is rejected. */
    method ReadLines(lines: seq<Line>, sink: Sink?, ghost c: nat, ghost before: seq<Frame>)
      returns (rejected: bool)
      requires Valid() && scan == START && Delivery(sink, c, before, Sent(), false)
      modifies this`acc, this`sentRole, this`tools, this`drawn, this`pieces, this`scan, this`done, this`fatal,
              this`consumed, sink
      ensures Valid() && (!rejected ==> scan == ScanAll(lines, lim, ids))
      ensures Delivery(sink, c, before, SentFor(framer, ScanAll(lines, lim, ids), spare), rejected)
    {
      var i := 0;
      while i < |lines|
        invariant 0 <= i <= |lines|
        invariant Valid() && scan == ScanAll(lines[..i], lim, ids)
        invariant Delivery(sink, c, before, Sent(), false)
      {
        AdvanceTo(lines, i, lim, ids);
        RestFollows(framer, lines, i + 1, lim, ids, spare);
        var finished, err;
        finished, rejected, err := ReadLine(lines[i], sink, c, before);
        i := i + 1;
        if rejected {
          BalkedDelivery(sink, c, before, Sent(), SentFor(framer, ScanAll(lines, lim, ids), spare));
          return;
        }
        if err.Some? || finished { return; }
      }
      assert lines[..|lines|] == lines;
      rejected := false;
    }

    /** Consume: every line in order, its frames to the sink as they come. The sink is offered the
        frames of the whole input up to and including the first one it rejects; the result is that
        rejection, or else the verdict on the input. */
    method Consume(lines: seq<Line>, readFailed: bool, sink: Sink?) returns (fault: Option<Fault>)
      requires Valid() && scan == START && (sink != null ==> sink.closes == [])
      modifies this`acc, this`sentRole, this`tools, this`drawn, this`pieces, this`scan, this`done, this`fatal,
              this`consumed, sink
      ensures sink == null ==> fault == Verdict(lines, readFailed, lim, ids)
      ensures sink != null ==> sink.closes == []
      ensures sink != null ==>
        var all := Wanted(framer, lines, lim, ids, spare);
        if Takes(sink.replies, old(sink.count), |all|) then
          Took(sink, old(sink.count), old(sink.emits), all) && fault == Verdict(lines, readFailed, lim, ids)
        else
          Balked(sink, old(sink.count), old(sink.emits), all) && fault == Some(EmitFailed)
      ensures fault.None? ==> Valid() && scan == ScanAll(lines, lim, ids)
    {
      if lim.event <= 0 || lim.response <= 0 { return Some(BadLimits); }
      ghost var c := if sink == null then 0 else sink.count;
      ghost var before := if sink == null then [] else sink.emits;
      var rejected := ReadLines(lines, sink, c, before);
      if rejected { return Some(EmitFailed); }
      if fatal.Some? { return fatal; }
      if done { return None; }
      if readFailed { return Some(ReadFailed); }
      fault := Finish();
    }
  }
}
