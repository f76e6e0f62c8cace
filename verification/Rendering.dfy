/** The OpenAI shapes of a turn (go/response.go) and what a client reads in them. */
module Rendering {
  import opened Wrappers
  import opened Turns

  /** Completion id, creation time and model shared by all frames of one framer. */
  datatype Header = Header(id: string, created: int, model: string)

  datatype UsageOut = UsageOut(prompt: int, completion: int, total: int, cached: Option<int>)

  datatype Delta =
    | NoDelta | Content(text: string) | Reasoning(text: string)
    | ToolCall(index: nat, id: string, name: string, args: string)

  datatype Frame = Frame(header: Header, role: bool, delta: Delta, finish: Option<string>, usage: Option<UsageOut>)

  /** The accumulator of go/response.go. */
  datatype Accumulated = Accumulated(
    discard: bool, seenContent: bool, text: string, reasoning: string, toolCalls: seq<Piece>,
    finish: string, usage: Usage, hasUsage: bool)

  /** A chat.completion body; absent fields are None. */
  datatype Response = Response(
    model: string, content: string, reasoning: Option<string>, toolCalls: Option<seq<(string, string, string)>>,
    finish: string, usage: UsageOut)

  // ---------- go/response.go ----------

  /** Go's int addition. */
  function Add64(a: int, b: int): int {
    (a + b + 0x8000_0000_0000_0000) % 0x1_0000_0000_0000_0000 - 0x8000_0000_0000_0000
  }

  /** The sum, wrapped into 64 bits. */
  lemma Add64Wraps(a: int, b: int)
    ensures -0x8000_0000_0000_0000 <= Add64(a, b) < 0x8000_0000_0000_0000
    ensures (a + b - Add64(a, b)) % 0x1_0000_0000_0000_0000 == 0
    ensures -0x8000_0000_0000_0000 <= a + b < 0x8000_0000_0000_0000 ==> Add64(a, b) == a + b
  {
  }

  function OpenAIUsage(a: Accumulated): UsageOut {
    var prompt := if a.hasUsage then a.usage.input else 0;
    var completion := if a.hasUsage then a.usage.output else 0;
    var cached := if a.hasUsage then a.usage.cacheRead else 0;
    UsageOut(prompt, completion, Add64(prompt, completion), if cached > 0 then Some(cached) else None)
  }

  /** A call without an id gets a spare one and a call without arguments an empty object. */
  function ToolDelta(index: nat, id: string, name: string, args: string, spare: nat -> string): Delta {
    ToolCall(index, if id == "" then spare(index) else id, name, if args == "" then "{}" else args)
  }

  function DeltaFrame(h: Header, first: bool, delta: Delta): Frame {
    Frame(h, first, delta, None, None)
  }

  function FinalFrame(h: Header, finish: string, usage: UsageOut): Frame {
    Frame(h, false, NoDelta, Some(finish), Some(usage))
  }

  /** The calls of a completion message. */
  function OpenAIToolCalls(calls: seq<Piece>, spare: nat -> string): (out: seq<(string, string, string)>)
    requires forall c :: c in calls ==> c.Call?
    ensures |out| == |calls|
  {
    seq(|calls|, i requires 0 <= i < |calls| =>
      var d := ToolDelta(i, calls[i].id, calls[i].name, calls[i].args, spare);
      (d.id, d.name, d.args))
  }

  function ToOpenAIResponse(a: Accumulated, model: string, spare: nat -> string): Response
    requires forall c :: c in a.toolCalls ==> c.Call?
  {
    var calls := OpenAIToolCalls(a.toolCalls, spare);
    Response(model, a.text,
             if a.reasoning != "" then Some(a.reasoning) else None,
             if |calls| > 0 then Some(calls) else None,
             a.finish, OpenAIUsage(a))
  }

  function CallChunks(h: Header, calls: seq<Piece>, afterFirst: bool, spare: nat -> string): (frames: seq<Frame>)
    requires forall c :: c in calls ==> c.Call?
    ensures |frames| == |calls|
  {
    if calls == [] then []
    else
      var n := |calls| - 1;
      CallChunks(h, calls[..n], afterFirst, spare)
      + [DeltaFrame(h, n == 0 && !afterFirst, ToolDelta(n, calls[n].id, calls[n].name, calls[n].args, spare))]
  }

  /** Buffered chunks: reasoning, text, calls, a bare role when there was nothing, the final frame. */
  function ToOpenAIChunks(a: Accumulated, h: Header, spare: nat -> string): seq<Frame>
    requires forall c :: c in a.toolCalls ==> c.Call?
  {
    var thoughts := if a.reasoning != "" then [DeltaFrame(h, true, Reasoning(a.reasoning))] else [];
    var texts := if a.text != "" then [DeltaFrame(h, thoughts == [], Content(a.text))] else [];
    var body := thoughts + texts + CallChunks(h, a.toolCalls, thoughts + texts != [], spare);
    (if body == [] then [DeltaFrame(h, true, NoDelta)] else body) + [FinalFrame(h, a.finish, OpenAIUsage(a))]
  }

  // ---------- the frames a streamed turn amounts to ----------

  /** One frame per piece; the first frame alone carries the role. */
  function PieceFrames(h: Header, ps: seq<Piece>, spare: nat -> string): (frames: seq<Frame>)
    ensures |frames| == |ps|
  {
    if ps == [] then []
    else
      var n := |ps| - 1;
      PieceFrames(h, ps[..n], spare) + [DeltaFrame(h, n == 0, PieceDelta(ps[n], |Calls(ps[..n])|, spare))]
  }

  function PieceDelta(p: Piece, index: nat, spare: nat -> string): Delta {
    match p
    case Text(t) => Content(t)
    case Thought(t) => Reasoning(t)
    case Call(id, name, args) => ToolDelta(index, id, name, args, spare)
  }

  function UsageOf(u: Option<Usage>): UsageOut {
    OpenAIUsage(Accumulated(false, false, "", "", [], "", if u.Some? then u.value else Usage(0, 0, 0, 0), u.Some?))
  }

  /** The end of a finished stream: a bare role if nothing was shown, then the final frame. */
  function EndFrames(h: Header, s: Scan): seq<Frame> {
    if !s.outcome.Finished? then []
    else (if s.pieces == [] then [DeltaFrame(h, true, NoDelta)] else [])
         + [FinalFrame(h, s.outcome.finish, UsageOf(s.outcome.usage))]
  }

  /** Everything sent for the lines read so far. */
  function Emitted(h: Header, s: Scan, spare: nat -> string): seq<Frame> {
    PieceFrames(h, s.pieces, spare) + EndFrames(h, s)
  }

  /** One more piece in the accumulator: kept by kind, or only noted when streaming. */
  function Kept(a: Accumulated, p: Piece): Accumulated {
    var b := a.(seenContent := true);
    if a.discard then b
    else match p
      case Text(t) => b.(text := a.text + t)
      case Thought(t) => b.(reasoning := a.reasoning + t)
      case Call(_, _, _) => b.(toolCalls := a.toolCalls + [p])
  }

  function Concluded(a: Accumulated, o: Outcome): Accumulated {
    if !o.Finished? then a
    else if o.usage.None? then a.(finish := o.finish)
    else a.(finish := o.finish, usage := o.usage.value, hasUsage := true)
  }

  function Accumulate(streaming: bool, ps: seq<Piece>): Accumulated {
    if ps == [] then Accumulated(streaming, false, "", "", [], "", Usage(0, 0, 0, 0), false)
    else Kept(Accumulate(streaming, ps[..|ps| - 1]), ps[|ps| - 1])
  }

  /** What the accumulator holds after a reading. */
  function Accumulation(streaming: bool, s: Scan): Accumulated {
    Concluded(Accumulate(streaming, s.pieces), s.outcome)
  }

  /** Buffered: the texts, the thoughts and the calls. Streaming: no copy of the answer. */
  lemma {:induction false} AccumulateMeans(streaming: bool, ps: seq<Piece>)
    ensures var a := Accumulate(streaming, ps);
            && a.discard == streaming && a.seenContent == (ps != []) && a.finish == "" && !a.hasUsage
            && a.usage == Usage(0, 0, 0, 0)
            && a.text == (if streaming then "" else Texts(ps))
            && a.reasoning == (if streaming then "" else Thoughts(ps))
            && a.toolCalls == (if streaming then [] else Calls(ps))
  {
    if ps != [] {
      AccumulateMeans(streaming, ps[..|ps| - 1]);
      var before := ps[..|ps| - 1];
      assert Texts(before) + "" == Texts(before) && Thoughts(before) + "" == Thoughts(before);
      assert Calls(before) + [] == Calls(before);
    }
  }

  lemma OneMore(streaming: bool, ps: seq<Piece>, p: Piece)
    ensures Accumulate(streaming, ps + [p]) == Kept(Accumulate(streaming, ps), p)
    ensures |Calls(ps + [p])| == |Calls(ps)| + if p.Call? then 1 else 0
    ensures Accumulate(streaming, ps).discard == streaming
  {
    assert (ps + [p])[..|ps|] == ps;
    AccumulateMeans(streaming, ps);
  }

  // ---------- what a client reads ----------

  /** A message as a client assembles it: text, reasoning, calls by index, finish reason, usage. */
  datatype Message = Message(
    content: string, reasoning: string, calls: map<nat, (string, string, string)>,
    finish: Option<string>, usage: Option<UsageOut>)

  const BLANK := Message("", "", map[], None, None)

  function Absorb(m: Message, f: Frame): Message {
    var m' := match f.delta
      case NoDelta => m
      case Content(t) => m.(content := m.content + t)
      case Reasoning(t) => m.(reasoning := m.reasoning + t)
      case ToolCall(i, id, name, args) => m.(calls := m.calls[i := (id, name, args)]);
    m'.(finish := if f.finish.Some? then f.finish else m.finish,
        usage := if f.usage.Some? then f.usage else m.usage)
  }

  /** The frames read one after another on top of m. */
  function Fold(m: Message, frames: seq<Frame>): Message {
    if frames == [] then m else Absorb(Fold(m, frames[..|frames| - 1]), frames[|frames| - 1])
  }

  function ReadResponse(r: Response): Message {
    Message(r.content, if r.reasoning.Some? then r.reasoning.value else "",
            if r.toolCalls.Some? then map i: nat | i < |r.toolCalls.value| :: r.toolCalls.value[i] else map[],
            Some(r.finish), Some(r.usage))
  }

  // ---------- the three outputs mean the same ----------

  lemma {:induction false} FoldConcat(m: Message, a: seq<Frame>, b: seq<Frame>)
    ensures Fold(m, a + b) == Fold(Fold(m, a), b)
  {
    if b == [] {
      assert a + b == a;
    } else {
      FoldConcat(m, a, b[..|b| - 1]);
      assert (a + b)[..|a + b| - 1] == a + b[..|b| - 1];
    }
  }

  lemma FoldOne(m: Message, f: Frame)
    ensures Fold(m, [f]) == Absorb(m, f)
  {
    assert [f][..0] == [];
  }

  /** The calls a client ends up with, by index. */
  function CallMap(calls: seq<Piece>, spare: nat -> string): map<nat, (string, string, string)>
    requires forall c :: c in calls ==> c.Call?
  {
    var out := OpenAIToolCalls(calls, spare);
    map i: nat | i < |out| :: out[i]
  }

  lemma CallMapAppend(calls: seq<Piece>, c: Piece, spare: nat -> string)
    requires c.Call? && forall c :: c in calls ==> c.Call?
    ensures forall x :: x in calls + [c] ==> x.Call?
    ensures var d := ToolDelta(|calls|, c.id, c.name, c.args, spare);
            CallMap(calls + [c], spare) == CallMap(calls, spare)[|calls| := (d.id, d.name, d.args)]
  {
  }

  /** The message made of some pieces. */
  function PiecesMessage(ps: seq<Piece>, spare: nat -> string): Message {
    Message(Texts(ps), Thoughts(ps), CallMap(Calls(ps), spare), None, None)
  }

  lemma PieceAbsorbed(h: Header, ps: seq<Piece>, first: bool, spare: nat -> string)
    requires ps != []
    ensures var before, p := ps[..|ps| - 1], ps[|ps| - 1];
            Absorb(PiecesMessage(before, spare), DeltaFrame(h, first, PieceDelta(p, |Calls(before)|, spare)))
            == PiecesMessage(ps, spare)
  {
    var before, p := ps[..|ps| - 1], ps[|ps| - 1];
    match p
    case Text(t) => assert Calls(ps) == Calls(before); assert Thoughts(ps) == Thoughts(before) + "";
    case Thought(t) => assert Calls(ps) == Calls(before); assert Texts(ps) == Texts(before) + "";
    case Call(_, _, _) =>
      CallMapAppend(Calls(before), p, spare);
      assert Texts(ps) == Texts(before) + "" && Thoughts(ps) == Thoughts(before) + "";
  }

  /** Folding the piece frames gives the texts, the thoughts and the calls, in order. */
  lemma {:induction false} FoldPieces(h: Header, ps: seq<Piece>, spare: nat -> string)
    ensures Fold(BLANK, PieceFrames(h, ps, spare)) == PiecesMessage(ps, spare)
  {
    if ps == [] {
      assert CallMap([], spare) == map[];
    } else {
      var n := |ps| - 1;
      FoldPieces(h, ps[..n], spare);
      PieceAbsorbed(h, ps, n == 0, spare);
      assert PieceFrames(h, ps, spare)[..n] == PieceFrames(h, ps[..n], spare);
    }
  }

  /** Streaming: folding all frames of a finished turn. */
  lemma FoldEmitted(h: Header, s: Scan, spare: nat -> string)
    requires s.outcome.Finished?
    ensures Fold(BLANK, Emitted(h, s, spare)) ==
            PiecesMessage(s.pieces, spare).(finish := Some(s.outcome.finish), usage := Some(UsageOf(s.outcome.usage)))
  {
    FoldPieces(h, s.pieces, spare);
    FoldConcat(BLANK, PieceFrames(h, s.pieces, spare), EndFrames(h, s));
    FoldEnd(PiecesMessage(s.pieces, spare), s.pieces == [], DeltaFrame(h, true, NoDelta),
            FinalFrame(h, s.outcome.finish, UsageOf(s.outcome.usage)));
  }

  /** A bare role frame adds nothing to the message. */
  lemma FoldEnd(m: Message, bare: bool, role: Frame, last: Frame)
    requires role.delta.NoDelta? && role.finish.None? && role.usage.None?
    ensures Fold(m, (if bare then [role] else []) + [last]) == Absorb(m, last)
  {
    FoldConcat(m, if bare then [role] else [], [last]);
    FoldOne(m, role);
    FoldOne(m, last);
  }

  lemma CallMapLast(calls: seq<Piece>, spare: nat -> string)
    requires calls != [] && forall c :: c in calls ==> c.Call?
    ensures var n := |calls| - 1;
            var d := ToolDelta(n, calls[n].id, calls[n].name, calls[n].args, spare);
            CallMap(calls, spare) == CallMap(calls[..n], spare)[n := (d.id, d.name, d.args)]
  {
    var n := |calls| - 1;
    CallMapAppend(calls[..n], calls[n], spare);
    assert calls == calls[..n] + [calls[n]];
  }

  lemma {:induction false} FoldCallChunks(m: Message, h: Header, calls: seq<Piece>, afterFirst: bool,
                                          spare: nat -> string)
    requires forall c :: c in calls ==> c.Call?
    requires m.calls == map[]
    ensures Fold(m, CallChunks(h, calls, afterFirst, spare)) == m.(calls := CallMap(calls, spare))
  {
    if calls == [] {
      assert CallMap([], spare) == map[];
    } else {
      var n := |calls| - 1;
      FoldCallChunks(m, h, calls[..n], afterFirst, spare);
      CallMapLast(calls, spare);
      assert CallChunks(h, calls, afterFirst, spare)[..n] == CallChunks(h, calls[..n], afterFirst, spare);
    }
  }

  /** Buffered chunks read like the buffered response. */
  lemma ChunksReadLikeResponse(a: Accumulated, h: Header, spare: nat -> string)
    requires forall c :: c in a.toolCalls ==> c.Call?
    ensures Fold(BLANK, ToOpenAIChunks(a, h, spare)) == ReadResponse(ToOpenAIResponse(a, h.model, spare))
  {
    var thoughts := if a.reasoning != "" then [DeltaFrame(h, true, Reasoning(a.reasoning))] else [];
    var texts := if a.text != "" then [DeltaFrame(h, thoughts == [], Content(a.text))] else [];
    var calls := CallChunks(h, a.toolCalls, thoughts + texts != [], spare);
    var last := FinalFrame(h, a.finish, OpenAIUsage(a));
    HeadReads(a, h);
    FoldCallChunks(Message(a.text, a.reasoning, map[], None, None), h, a.toolCalls, thoughts + texts != [], spare);
    var body := thoughts + texts + calls;
    FoldConcat(BLANK, thoughts + texts, calls);
    FoldConcat(BLANK, body, [last]);
    FoldEnd(Fold(BLANK, body), body == [], DeltaFrame(h, true, NoDelta), last);
    FoldOne(Fold(BLANK, body), last);
    assert CallMap(a.toolCalls, spare) == ReadResponse(ToOpenAIResponse(a, h.model, spare)).calls;
  }

  lemma HeadReads(a: Accumulated, h: Header)
    ensures var thoughts := if a.reasoning != "" then [DeltaFrame(h, true, Reasoning(a.reasoning))] else [];
            var texts := if a.text != "" then [DeltaFrame(h, thoughts == [], Content(a.text))] else [];
            Fold(BLANK, thoughts + texts) == Message(a.text, a.reasoning, map[], None, None)
  {
    var thoughts := if a.reasoning != "" then [DeltaFrame(h, true, Reasoning(a.reasoning))] else [];
    var texts := if a.text != "" then [DeltaFrame(h, thoughts == [], Content(a.text))] else [];
    FoldConcat(BLANK, thoughts, texts);
    FoldOne(BLANK, DeltaFrame(h, true, Reasoning(a.reasoning)));
    FoldOne(Fold(BLANK, thoughts), DeltaFrame(h, thoughts == [], Content(a.text)));
  }
}
