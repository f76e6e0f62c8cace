/** A turn from its lines to its consumer: the relay of go/stream.go and the buffered reader of
    go/executor.go, and what a client gets from either. */
module Streams {
  import opened Wrappers
  import opened Turns
  import opened Rendering
  import opened Decoding

  /** How a relayed stream closes: a rejected frame, or else the verdict on the input. */
  ghost function CloseMessage(h: Header, lines: seq<Line>, readFailed: bool, lim: Limits,
                              ids: nat -> string, spare: nat -> string, replies: nat -> Reply): Option<Fault> {
    if Takes(replies, 0, |Wanted(Some(h), lines, lim, ids, spare)|) then Verdict(lines, readFailed, lim, ids)
    else Some(EmitFailed)
  }

  /** The frames the host is called with. */
  ghost function Relayed(h: Header, lines: seq<Line>, lim: Limits, ids: nat -> string, spare: nat -> string,
                         replies: nat -> Reply): seq<Frame> {
    Offer(replies, 0, Wanted(Some(h), lines, lim, ids, spare))
  }

  /** relayStream: the frames go to the host as they come, then exactly one close. */
  method RelayStream(h: Header, lines: seq<Line>, readFailed: bool, lim: Limits,
                     ids: nat -> string, spare: nat -> string, host: Sink)
    requires host.emits == [] && host.closes == [] && host.count == 0
    modifies host
    ensures host.emits == Relayed(h, lines, lim, ids, spare, host.replies)
    ensures host.closes == [CloseMessage(h, lines, readFailed, lim, ids, spare, host.replies)]
  {
    var d := new EventDecoder(Some(h), lim, ids, spare);
    var message := d.Consume(lines, readFailed, host);
    host.Close(message);
  }

  /** consumeTurn: the accumulator of the whole answer, or the fault. */
  method ConsumeTurn(lines: seq<Line>, readFailed: bool, lim: Limits, ids: nat -> string, spare: nat -> string)
    returns (acc: Option<Accumulated>, fault: Option<Fault>)
    ensures fault == Verdict(lines, readFailed, lim, ids)
    ensures acc == if fault.None? then Some(Accumulation(false, ScanAll(lines, lim, ids))) else None
  {
    var d := new EventDecoder(None, lim, ids, spare);
    fault := d.Consume(lines, readFailed, null);
    acc := if fault.None? then Some(d.acc) else None;
  }

  // ---------- streaming and buffering mean the same ----------

  /** A turn that ends well reads the same three ways: as the frames of the stream, as the buffered
      response, and as the buffered response cut into chunks. */
  lemma SameTurnSameMeaning(h: Header, lines: seq<Line>, readFailed: bool, lim: Limits,
                            ids: nat -> string, spare: nat -> string)
    requires Verdict(lines, readFailed, lim, ids).None?
    ensures var a := Accumulation(false, ScanAll(lines, lim, ids));
            var message := Fold(BLANK, Wanted(Some(h), lines, lim, ids, spare));
            && (forall c :: c in a.toolCalls ==> c.Call?)
            && message == ReadResponse(ToOpenAIResponse(a, h.model, spare))
            && message == Fold(BLANK, ToOpenAIChunks(a, h, spare))
            && message.finish.Some? && message.usage.Some?
  {
    var s := ScanAll(lines, lim, ids);
    var a := Accumulation(false, s);
    AccumulateMeans(false, s.pieces);
    FoldEmitted(h, s, spare);
    ChunksReadLikeResponse(a, h, spare);
    assert ReadResponse(ToOpenAIResponse(a, h.model, spare)).calls == CallMap(Calls(s.pieces), spare);
  }

  // ---------- the discipline of one stream ----------

  /** The indices of the tool calls, in order of arrival. */
  function ToolIndices(frames: seq<Frame>): seq<nat> {
    if frames == [] then []
    else
      var last := frames[|frames| - 1].delta;
      ToolIndices(frames[..|frames| - 1]) + if last.ToolCall? then [last.index] else []
  }

  function UpTo(n: nat): (counting: seq<nat>)
    ensures |counting| == n
  {
    seq(n, i => i)
  }

  /** Lines read before the turn is over. */
  function LinesRead(lines: seq<Line>, lim: Limits, ids: nat -> string): (n: nat)
    ensures n <= |lines|
  {
    if lines == [] then 0
    else
      var before := lines[..|lines| - 1];
      if ScanAll(before, lim, ids).outcome.Running? then |lines| else LinesRead(before, lim, ids)
  }

  lemma {:induction false} PiecesWithinRead(lines: seq<Line>, lim: Limits, ids: nat -> string)
    ensures var s := ScanAll(lines, lim, ids);
            |s.pieces| + (if s.outcome.Running? then 0 else 1) <= LinesRead(lines, lim, ids)
  {
    if lines != [] {
      var before := lines[..|lines| - 1];
      PiecesWithinRead(before, lim, ids);
      if ScanAll(before, lim, ids).outcome.Running? { RunningReadsAll(before, lim, ids); }
    }
  }

  lemma {:induction false} RunningReadsAll(lines: seq<Line>, lim: Limits, ids: nat -> string)
    requires ScanAll(lines, lim, ids).outcome.Running?
    ensures LinesRead(lines, lim, ids) == |lines|
  {
  }

  /** Frames in order with the end still to come. */
  ghost predicate OpenFrames(h: Header, frames: seq<Frame>) {
    forall k :: 0 <= k < |frames| ==> frames[k].header == h && frames[k].role == (k == 0) && frames[k].finish.None?
  }

  lemma {:induction false} PieceFramesOrdered(h: Header, ps: seq<Piece>, spare: nat -> string)
    ensures OpenFrames(h, PieceFrames(h, ps, spare))
  {
    if ps != [] {
      var n := |ps| - 1;
      var before := PieceFrames(h, ps[..n], spare);
      PieceFramesOrdered(h, ps[..n], spare);
      OneMoreOpen(h, before, DeltaFrame(h, n == 0, PieceDelta(ps[n], |Calls(ps[..n])|, spare)));
    }
  }

  lemma OneMoreOpen(h: Header, frames: seq<Frame>, next: Frame)
    requires OpenFrames(h, frames) && next.header == h && next.role == (frames == []) && next.finish.None?
    ensures OpenFrames(h, frames + [next])
  {
  }

  lemma {:induction false} PieceFramesNumbered(h: Header, ps: seq<Piece>, spare: nat -> string)
    ensures ToolIndices(PieceFrames(h, ps, spare)) == UpTo(|Calls(ps)|)
  {
    if ps != [] {
      var n := |ps| - 1;
      var before := PieceFrames(h, ps[..n], spare);
      PieceFramesNumbered(h, ps[..n], spare);
      IndexOfLast(before, DeltaFrame(h, n == 0, PieceDelta(ps[n], |Calls(ps[..n])|, spare)));
    }
  }

  lemma IndexOfLast(before: seq<Frame>, last: Frame)
    ensures ToolIndices(before + [last]) ==
            ToolIndices(before) + if last.delta.ToolCall? then [last.delta.index] else []
  {
    assert (before + [last])[..|before|] == before;
  }

  lemma {:induction false} IndicesConcat(a: seq<Frame>, b: seq<Frame>)
    ensures ToolIndices(a + b) == ToolIndices(a) + ToolIndices(b)
  {
    if b == [] {
      assert a + b == a;
    } else {
      IndicesConcat(a, b[..|b| - 1]);
      assert (a + b)[..|a + b| - 1] == a + b[..|b| - 1];
    }
  }

  lemma EndHasNoCalls(h: Header, s: Scan)
    ensures ToolIndices(EndFrames(h, s)) == []
  {
    if s.outcome.Finished? {
      var last := FinalFrame(h, s.outcome.finish, UsageOf(s.outcome.usage));
      IndicesConcat(if s.pieces == [] then [DeltaFrame(h, true, NoDelta)] else [], [last]);
    }
  }

  /** Frames as a client may expect them: one header, the role in the first alone, a finish reason in
      the last alone. */
  ghost predicate Disciplined(h: Header, frames: seq<Frame>) {
    && (forall k :: 0 <= k < |frames| ==> frames[k].header == h && frames[k].role == (k == 0))
    && (forall k :: 0 <= k < |frames| ==> (frames[k].finish.Some? <==> k == |frames| - 1))
  }

  /** Every stream: the first frame alone carries the role, all frames share the header, and a finish
      reason comes only in the last frame, exactly when the turn finished. */
  lemma FrameDiscipline(h: Header, lines: seq<Line>, lim: Limits, ids: nat -> string, spare: nat -> string)
    requires lim.event > 0 && lim.response > 0
    ensures var fs := Wanted(Some(h), lines, lim, ids, spare);
            if ScanAll(lines, lim, ids).outcome.Finished? then fs != [] && Disciplined(h, fs) else OpenFrames(h, fs)
  {
    var s := ScanAll(lines, lim, ids);
    var shown := PieceFrames(h, s.pieces, spare);
    PieceFramesOrdered(h, s.pieces, spare);
    if s.outcome.Finished? {
      var last := FinalFrame(h, s.outcome.finish, UsageOf(s.outcome.usage));
      var body := if s.pieces == [] then [DeltaFrame(h, true, NoDelta)] else shown;
      BodyThenLast(h, body, last);
      assert shown + EndFrames(h, s) == body + [last];
    } else {
      assert shown + EndFrames(h, s) == shown;
    }
  }

  /** Every stream: the calls are numbered 0, 1, 2, ..., and there is at most one frame more than
      lines read. */
  lemma CallsAreNumbered(h: Header, lines: seq<Line>, lim: Limits, ids: nat -> string, spare: nat -> string)
    requires lim.event > 0 && lim.response > 0
    ensures var fs := Wanted(Some(h), lines, lim, ids, spare);
            && ToolIndices(fs) == UpTo(|Calls(ScanAll(lines, lim, ids).pieces)|)
            && |fs| <= LinesRead(lines, lim, ids) + 1
  {
    var s := ScanAll(lines, lim, ids);
    PieceFramesNumbered(h, s.pieces, spare);
    PiecesWithinRead(lines, lim, ids);
    IndicesConcat(PieceFrames(h, s.pieces, spare), EndFrames(h, s));
    EndHasNoCalls(h, s);
  }

  /** The close carries no message exactly when the host took a frame with the finish reason, and
      that frame is then the last one it was called with. */
  lemma CleanCloseMeansFinished(h: Header, lines: seq<Line>, readFailed: bool, lim: Limits,
                                ids: nat -> string, spare: nat -> string, replies: nat -> Reply)
    ensures var fs := Relayed(h, lines, lim, ids, spare, replies);
            CloseMessage(h, lines, readFailed, lim, ids, spare, replies).None?
            <==> fs != [] && fs[|fs| - 1].finish.Some? && Takes(replies, 0, |fs|)
  {
    if lim.event > 0 && lim.response > 0 { FrameDiscipline(h, lines, lim, ids, spare); }
  }

  lemma {:induction false} ReachStops(replies: nat -> Reply, from: nat, n: nat)
    ensures var m := Reach(replies, from, n);
            && (forall k :: from <= k < from + m - 1 ==> replies(k).Taken?)
            && (m > 0 ==> !replies(from + m - 1).Cancelled?)
            && (m < n ==> replies(from + m).Cancelled? || (m > 0 && replies(from + m - 1).Refused?))
            && (Takes(replies, from, n) <==> m == n && (m > 0 ==> replies(from + m - 1).Taken?))
    decreases n
  {
    if n > 0 && replies(from).Taken? { ReachStops(replies, from + 1, n - 1); }
  }

  /** The host gets the first frames in order, and after the first it does not take, none: every frame
      but the last it was called with was taken, the calls end early only when the last was refused or
      the next came after a cancellation, and then the close says so. */
  lemma HostIsCalledUntilRefusal(h: Header, lines: seq<Line>, readFailed: bool, lim: Limits,
                                 ids: nat -> string, spare: nat -> string, replies: nat -> Reply)
    ensures var all, fs := Wanted(Some(h), lines, lim, ids, spare), Relayed(h, lines, lim, ids, spare, replies);
            var taken := fs != [] ==> replies(|fs| - 1).Taken?;
            && fs <= all
            && (forall k :: 0 <= k < |fs| - 1 ==> replies(k).Taken?)
            && (fs != [] ==> !replies(|fs| - 1).Cancelled?)
            && (|fs| < |all| ==> replies(|fs|).Cancelled? || !taken)
            && CloseMessage(h, lines, readFailed, lim, ids, spare, replies)
               == if |fs| == |all| && taken then Verdict(lines, readFailed, lim, ids) else Some(EmitFailed)
  {
    ReachStops(replies, 0, |Wanted(Some(h), lines, lim, ids, spare)|);
  }

  lemma {:induction false} CallChunksOrdered(h: Header, calls: seq<Piece>, afterFirst: bool, spare: nat -> string)
    requires forall c :: c in calls ==> c.Call?
    ensures var fs := CallChunks(h, calls, afterFirst, spare);
            && (forall k :: 0 <= k < |fs| ==>
                    fs[k].header == h && fs[k].role == (k == 0 && !afterFirst) && fs[k].finish.None?)
            && ToolIndices(fs) == UpTo(|calls|)
  {
    if calls != [] {
      var n := |calls| - 1;
      CallChunksOrdered(h, calls[..n], afterFirst, spare);
      assert CallChunks(h, calls, afterFirst, spare)[..n] == CallChunks(h, calls[..n], afterFirst, spare);
    }
  }

  /** The frames before the calls: at most two, none of them a call. */
  lemma HeadOrdered(h: Header, thoughts: seq<Frame>, texts: seq<Frame>)
    requires |thoughts| <= 1 && forall f :: f in thoughts ==>
            f.header == h && f.role && f.finish.None? && !f.delta.ToolCall?
    requires |texts| <= 1
    requires forall f :: f in texts ==>
            f.header == h && f.role == (thoughts == []) && f.finish.None? && !f.delta.ToolCall?
    ensures OpenFrames(h, thoughts + texts) && ToolIndices(thoughts + texts) == []
  {
    IndicesConcat(thoughts, texts);
  }

  lemma BodyOrdered(h: Header, head: seq<Frame>, calls: seq<Piece>, spare: nat -> string)
    requires OpenFrames(h, head) && ToolIndices(head) == [] && forall c :: c in calls ==> c.Call?
    ensures var body := head + CallChunks(h, calls, head != [], spare);
            OpenFrames(h, body) && ToolIndices(body) == UpTo(|calls|)
  {
    CallChunksOrdered(h, calls, head != [], spare);
    IndicesConcat(head, CallChunks(h, calls, head != [], spare));
  }

  lemma BodyThenLast(h: Header, body: seq<Frame>, last: Frame)
    requires body != [] && OpenFrames(h, body)
    requires last.header == h && !last.role && last.finish.Some? && !last.delta.ToolCall?
    ensures Disciplined(h, body + [last]) && ToolIndices(body + [last]) == ToolIndices(body)
  {
    IndexOfLast(body, last);
  }

  /** The chunks of a buffered answer keep the discipline of a stream, with one chunk per call. */
  lemma ChunksFollowDiscipline(a: Accumulated, h: Header, spare: nat -> string)
    requires forall c :: c in a.toolCalls ==> c.Call?
    ensures var fs := ToOpenAIChunks(a, h, spare);
            Disciplined(h, fs) && ToolIndices(fs) == UpTo(|a.toolCalls|)
  {
    var thoughts := if a.reasoning != "" then [DeltaFrame(h, true, Reasoning(a.reasoning))] else [];
    var texts := if a.text != "" then [DeltaFrame(h, thoughts == [], Content(a.text))] else [];
    var head := thoughts + texts;
    HeadOrdered(h, thoughts, texts);
    BodyOrdered(h, head, a.toolCalls, spare);
    var shown := head + CallChunks(h, a.toolCalls, head != [], spare);
    var body := if shown == [] then [DeltaFrame(h, true, NoDelta)] else shown;
    assert ToolIndices([DeltaFrame(h, true, NoDelta)]) == [] by { IndexOfLast([], DeltaFrame(h, true, NoDelta)); }
    BodyThenLast(h, body, FinalFrame(h, a.finish, OpenAIUsage(a)));
  }
}
