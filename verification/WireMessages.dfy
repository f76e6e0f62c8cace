/** toWireMessages of go/request.go: OpenAI messages become gateway messages. Message contents come
    here as their flattened texts and parts, tool arguments as parsed JSON or None. */
module WireMessages {
  import opened Wrappers

  datatype ToolCall = ToolCall(id: string, name: string, input: Option<string>)

  datatype Message =
    | SystemMessage(text: string)                                   // system and developer
    | AssistantMessage(reasoning: string, text: string, calls: seq<ToolCall>)
    | ToolMessage(toolCallId: string, name: string, result: string)
    | UserMessage(parts: seq<string>)                               // user and any other role

  datatype Part =
    | ReasoningPart(text: string) | TextPart(text: string) | CallPart(id: string, name: string, input: string)

  datatype WireMessage =
    | WireAssistant(content: seq<Part>)
    | WireTool(toolCallId: string, toolName: string, value: string)
    | WireUser(parts: seq<string>)

  // ---------- what is sent, message by message ----------

  predicate CallsParse(calls: seq<ToolCall>) {
    forall i :: 0 <= i < |calls| ==> calls[i].input.Some?
  }

  predicate Parses(m: Message) {
    m.AssistantMessage? ==> CallsParse(m.calls)
  }

  function DrawnBy(calls: seq<ToolCall>): nat {
    if calls == [] then 0 else DrawnBy(calls[..|calls| - 1]) + if calls[|calls| - 1].id == "" then 1 else 0
  }

  /** How many ids newID has supplied for some messages. */
  function Drawn(ms: seq<Message>): nat {
    if ms == [] then 0
    else
      var last := ms[|ms| - 1];
      Drawn(ms[..|ms| - 1]) + if last.AssistantMessage? then DrawnBy(last.calls) else 0
  }

  /** The calls with their ids; one without an id gets the next of newID. */
  function Sent(calls: seq<ToolCall>, drawn: nat, ids: nat -> string): (sent: seq<ToolCall>)
    ensures |sent| == |calls|
    ensures CallsParse(calls) ==> CallsParse(sent)
  {
    if calls == [] then []
    else
      var before, last := calls[..|calls| - 1], calls[|calls| - 1];
      Sent(before, drawn, ids) + [last.(id := if last.id == "" then ids(drawn + DrawnBy(before)) else last.id)]
  }

  /** All calls of some messages, as sent, in order. */
  function AllCalls(ms: seq<Message>, ids: nat -> string): seq<ToolCall> {
    if ms == [] then []
    else
      var before, last := ms[..|ms| - 1], ms[|ms| - 1];
      AllCalls(before, ids) + if last.AssistantMessage? then Sent(last.calls, Drawn(before), ids) else []
  }

  /** The name of the most recent call with an id, or "". */
  function NameOf(calls: seq<ToolCall>, id: string): string {
    if calls == [] then ""
    else if calls[|calls| - 1].id == id then calls[|calls| - 1].name
    else NameOf(calls[..|calls| - 1], id)
  }

  lemma {:induction false} NameIsMostRecent(calls: seq<ToolCall>, id: string, j: nat)
    requires j < |calls| && calls[j].id == id && forall k :: j < k < |calls| ==> calls[k].id != id
    ensures NameOf(calls, id) == calls[j].name
  {
    if j < |calls| - 1 { NameIsMostRecent(calls[..|calls| - 1], id, j); }
  }

  function CallParts(sent: seq<ToolCall>): (parts: seq<Part>)
    requires CallsParse(sent)
    ensures |parts| == |sent|
  {
    if sent == [] then []
    else
      var last := sent[|sent| - 1];
      CallParts(sent[..|sent| - 1]) + [CallPart(last.id, last.name, last.input.value)]
  }

  function HeadParts(reasoning: string, text: string): seq<Part> {
    (if reasoning != "" then [ReasoningPart(reasoning)] else []) + (if text != "" then [TextPart(text)] else [])
  }

  /** A result without a name has that of the call it answers. */
  function ResultName(name: string, called: string): string {
    if name != "" then name else if called != "" then called else "unknown"
  }

  /** What is sent for message k: nothing for system text and for empty user turns. */
  function WireOf(ms: seq<Message>, k: nat, ids: nat -> string): (wire: Option<WireMessage>)
    requires k < |ms| && Parses(ms[k])
    ensures wire.None? <==> ms[k].SystemMessage? || (ms[k].UserMessage? && ms[k].parts == [])
  {
    match ms[k]
    case SystemMessage(_) => None
    case AssistantMessage(reasoning, text, calls) =>
      Some(WireAssistant(HeadParts(reasoning, text) + CallParts(Sent(calls, Drawn(ms[..k]), ids))))
    case ToolMessage(id, name, result) =>
      Some(WireTool(id, ResultName(name, NameOf(AllCalls(ms[..k], ids), id)), result))
    case UserMessage(parts) => if parts == [] then None else Some(WireUser(parts))
  }

  function Wires(ms: seq<Message>, ids: nat -> string): seq<WireMessage>
    requires forall i :: 0 <= i < |ms| ==> Parses(ms[i])
  {
    if ms == [] then []
    else
      var n := |ms| - 1;
      var wire := WireOf(ms, n, ids);
      Wires(ms[..n], ids) + if wire.Some? then [wire.value] else []
  }

  /** The non-empty system texts, in order. */
  function SystemTexts(ms: seq<Message>): (texts: seq<string>)
    ensures forall t :: t in texts ==> t != ""
  {
    if ms == [] then []
    else
      var last := ms[|ms| - 1];
      SystemTexts(ms[..|ms| - 1]) + if last.SystemMessage? && last.text != "" then [last.text] else []
  }

  /** Texts with a blank line between each two. */
  function JoinBlankLine(texts: seq<string>): string {
    if texts == [] then ""
    else if |texts| == 1 then texts[0]
    else JoinBlankLine(texts[..|texts| - 1]) + "\n\n" + texts[|texts| - 1]
  }

  lemma {:induction false} JoinIsEmpty(texts: seq<string>)
    requires forall t :: t in texts ==> t != ""
    ensures JoinBlankLine(texts) == "" <==> texts == []
  {
    if |texts| > 1 { assert texts[|texts| - 1] in texts; }
    if |texts| == 1 { assert texts[0] in texts; }
  }

  // ---------- one message ----------

  /** The id call j is sent with: its own, or the next new one when it has none. */
  function IdSent(calls: seq<ToolCall>, drawn: nat, ids: nat -> string, j: nat): string
    requires j < |calls|
  {
    if calls[j].id != "" then calls[j].id else ids(drawn + DrawnBy(calls[..j]))
  }

  lemma {:induction false} SentAt(calls: seq<ToolCall>, drawn: nat, ids: nat -> string, j: nat)
    requires j < |calls|
    ensures Sent(calls, drawn, ids)[j] == calls[j].(id := IdSent(calls, drawn, ids, j))
  {
    if j < |calls| - 1 {
      SentAt(calls[..|calls| - 1], drawn, ids, j);
      assert calls[..|calls| - 1][..j] == calls[..j];
    }
  }

  lemma {:induction false} PartAt(sent: seq<ToolCall>, j: nat)
    requires j < |sent| && CallsParse(sent)
    ensures CallParts(sent)[j] == CallPart(sent[j].id, sent[j].name, sent[j].input.value)
  {
    if j < |sent| - 1 { PartAt(sent[..|sent| - 1], j); }
  }

  /** The parts are those of this message, whose calls draw ids from number `drawn` on. */
  ghost predicate PartsOf(parts: seq<Part>, m: Message, drawn: nat, ids: nat -> string)
    requires m.AssistantMessage? && CallsParse(m.calls)
  {
    var r, t := if m.reasoning == "" then 0 else 1, if m.text == "" then 0 else 1;
    && |parts| == r + t + |m.calls|
    && (r == 1 ==> parts[0] == ReasoningPart(m.reasoning))
    && (t == 1 ==> parts[r] == TextPart(m.text))
    && forall j :: 0 <= j < |m.calls| ==>
         parts[r + t + j] == CallPart(IdSent(m.calls, drawn, ids, j), m.calls[j].name, m.calls[j].input.value)
  }

  lemma HeadThenCalls(m: Message, drawn: nat, ids: nat -> string)
    requires m.AssistantMessage? && CallsParse(m.calls)
    ensures PartsOf(HeadParts(m.reasoning, m.text) + CallParts(Sent(m.calls, drawn, ids)), m, drawn, ids)
  {
    var head, sent := HeadParts(m.reasoning, m.text), Sent(m.calls, drawn, ids);
    forall j | 0 <= j < |m.calls|
      ensures CallParts(sent)[j]
              == CallPart(IdSent(m.calls, drawn, ids, j), m.calls[j].name, m.calls[j].input.value)
    {
      SentAt(m.calls, drawn, ids, j);
      PartAt(sent, j);
    }
    HeadBefore(m, drawn, ids, CallParts(sent));
  }

  lemma HeadBefore(m: Message, drawn: nat, ids: nat -> string, parts: seq<Part>)
    requires m.AssistantMessage? && CallsParse(m.calls) && |parts| == |m.calls|
    requires forall j :: 0 <= j < |m.calls| ==>
               parts[j] == CallPart(IdSent(m.calls, drawn, ids, j), m.calls[j].name, m.calls[j].input.value)
    ensures PartsOf(HeadParts(m.reasoning, m.text) + parts, m, drawn, ids)
  {
    var head := HeadParts(m.reasoning, m.text);
    assert forall j :: 0 <= j < |m.calls| ==> (head + parts)[|head| + j] == parts[j];
  }

  /** An assistant message is sent part by part, leaving out what is empty: the reasoning, the text,
      and then every call in order. A call without an id gets the new id after all those drawn before. */
  lemma AssistantIsSent(ms: seq<Message>, k: nat, ids: nat -> string)
    requires k < |ms| && ms[k].AssistantMessage? && Parses(ms[k])
    ensures var wire := WireOf(ms, k, ids);
            wire.Some? && wire.value.WireAssistant? && PartsOf(wire.value.content, ms[k], Drawn(ms[..k]), ids)
  {
    HeadThenCalls(ms[k], Drawn(ms[..k]), ids);
  }

  /** A tool result is sent under its own name, else under that of the last call before it with its id,
      else as "unknown". */
  lemma ResultIsSent(ms: seq<Message>, k: nat, ids: nat -> string, j: nat)
    requires k < |ms| && ms[k].ToolMessage?
    ensures var m := ms[k];
            var calls := AllCalls(ms[..k], ids);
            var wire := WireOf(ms, k, ids);
            && wire.Some? && wire.value.WireTool?
            && wire.value.toolCallId == m.toolCallId && wire.value.value == m.result
            && (m.name != "" ==> wire.value.toolName == m.name)
            && (m.name == "" && j < |calls| && calls[j].id == m.toolCallId
                && (forall i :: j < i < |calls| ==> calls[i].id != m.toolCallId)
                ==> wire.value.toolName == if calls[j].name != "" then calls[j].name else "unknown")
            && (m.name == "" && (forall c :: c in calls ==> c.id != m.toolCallId) ==> wire.value.toolName == "unknown")
  {
    var calls := AllCalls(ms[..k], ids);
    if j < |calls| && calls[j].id == ms[k].toolCallId
       && forall i :: j < i < |calls| ==> calls[i].id != ms[k].toolCallId {
      NameIsMostRecent(calls, ms[k].toolCallId, j);
    }
    if forall c :: c in calls ==> c.id != ms[k].toolCallId { NobodyNamed(calls, ms[k].toolCallId); }
  }

  lemma {:induction false} NobodyNamed(calls: seq<ToolCall>, id: string)
    requires forall c :: c in calls ==> c.id != id
    ensures NameOf(calls, id) == ""
  {
    if calls != [] {
      assert calls[|calls| - 1] in calls;
      NobodyNamed(calls[..|calls| - 1], id);
    }
  }

  /** User parts are sent as they are, if there are any; system text is not sent as a message. */
  lemma OthersAreSent(ms: seq<Message>, k: nat, ids: nat -> string)
    requires k < |ms| && (ms[k].UserMessage? || ms[k].SystemMessage?)
    ensures WireOf(ms, k, ids) == if ms[k].UserMessage? && ms[k].parts != [] then Some(WireUser(ms[k].parts)) else None
  {
  }

  /** A call of an earlier message, with an id of its own that no later call before message k has. */
  predicate LastCallWith(ms: seq<Message>, k: nat, i: nat, j: nat, id: string)
    requires i < k <= |ms|
  {
    && ms[i].AssistantMessage? && j < |ms[i].calls| && ms[i].calls[j].id == id != ""
    && (forall j' :: j < j' < |ms[i].calls| ==> ms[i].calls[j'].id != id)
    && (forall i' :: i < i' < k && ms[i'].AssistantMessage? ==> forall c :: c in ms[i'].calls ==> c.id != id)
  }

  lemma {:induction false} SentWithout(calls: seq<ToolCall>, drawn: nat, ids: nat -> string, id: string)
    requires (forall c :: c in calls ==> c.id != id) && forall n :: ids(n) != id
    ensures forall c :: c in Sent(calls, drawn, ids) ==> c.id != id
  {
    if calls != [] {
      assert calls[|calls| - 1] in calls;
      SentWithout(calls[..|calls| - 1], drawn, ids, id);
    }
  }

  lemma {:induction false} NameInSent(calls: seq<ToolCall>, drawn: nat, ids: nat -> string, j: nat, id: string)
    requires j < |calls| && calls[j].id == id != "" && forall j' :: j < j' < |calls| ==> calls[j'].id != id
    requires forall n :: ids(n) != id
    ensures NameOf(Sent(calls, drawn, ids), id) == calls[j].name
    ensures exists c :: c in Sent(calls, drawn, ids) && c.id == id
  {
    var n := |calls| - 1;
    var sent := Sent(calls, drawn, ids);
    assert sent[..n] == Sent(calls[..n], drawn, ids);
    if j < n {
      NameInSent(calls[..n], drawn, ids, j, id);
    } else {
      assert sent[n] in sent;
    }
  }

  /** The last of two lists that knows an id names it. */
  lemma {:induction false} NameInBoth(a: seq<ToolCall>, b: seq<ToolCall>, id: string)
    ensures (forall c :: c in b ==> c.id != id) ==> NameOf(a + b, id) == NameOf(a, id)
    ensures (exists c :: c in b && c.id == id) ==> NameOf(a + b, id) == NameOf(b, id)
  {
    if b == [] {
      assert a + b == a;
    } else {
      var n := |b| - 1;
      assert (a + b)[..|a + b| - 1] == a + b[..n];
      NameInBoth(a, b[..n], id);
    }
  }

  lemma {:induction false} NameInAll(ms: seq<Message>, k: nat, ids: nat -> string, i: nat, j: nat, id: string)
    requires i < k <= |ms| && LastCallWith(ms, k, i, j, id) && forall n :: ids(n) != id
    ensures NameOf(AllCalls(ms[..k], ids), id) == ms[i].calls[j].name
  {
    var n := k - 1;
    var earlier := AllCalls(ms[..n], ids);
    AllCallsOneMore(ms, n, ids);
    if i < n { NameInAll(ms, n, ids, i, j, id); }
    if ms[n].AssistantMessage? {
      var sent := Sent(ms[n].calls, Drawn(ms[..n]), ids);
      NameInBoth(earlier, sent, id);
      if i == n {
        NameInSent(ms[n].calls, Drawn(ms[..n]), ids, j, id);
      } else {
        SentWithout(ms[n].calls, Drawn(ms[..n]), ids, id);
      }
    }
  }

  lemma AllCallsOneMore(ms: seq<Message>, n: nat, ids: nat -> string)
    requires n < |ms|
    ensures AllCalls(ms[..n + 1], ids) == if ms[n].AssistantMessage?
              then AllCalls(ms[..n], ids) + Sent(ms[n].calls, Drawn(ms[..n]), ids) else AllCalls(ms[..n], ids)
  {
    assert ms[..n + 1][..n] == ms[..n];
  }

  /** A tool result without a name is sent under the name of the call it answers: the last one before it
      with its id, in whatever message, as long as new ids are unlike it. */
  lemma ResultFindsItsCall(ms: seq<Message>, k: nat, ids: nat -> string, i: nat, j: nat)
    requires i < k < |ms| && ms[k].ToolMessage? && ms[k].name == ""
    requires LastCallWith(ms, k, i, j, ms[k].toolCallId) && forall n :: ids(n) != ms[k].toolCallId
    ensures var called := ms[i].calls[j].name;
            WireOf(ms, k, ids)
            == Some(WireTool(ms[k].toolCallId, if called != "" then called else "unknown", ms[k].result))
  {
    NameInAll(ms, k, ids, i, j, ms[k].toolCallId);
  }

  // ---------- system text ----------

  /** No text is passed over: one list of messages after another gives the texts of the one and then
      those of the other. */
  lemma {:induction false} SystemTextsConcat(a: seq<Message>, b: seq<Message>)
    ensures SystemTexts(a + b) == SystemTexts(a) + SystemTexts(b)
  {
    if b == [] {
      assert a + b == a;
    } else {
      var n := |b| - 1;
      SystemTextsConcat(a, b[..n]);
      assert (a + b)[..|a + b| - 1] == a + b[..n];
    }
  }

  lemma {:induction false} JoinConcat(a: seq<string>, b: seq<string>)
    requires a != [] && b != []
    ensures JoinBlankLine(a + b) == JoinBlankLine(a) + "\n\n" + JoinBlankLine(b)
  {
    var n := |b| - 1;
    assert (a + b)[..|a + b| - 1] == a + b[..n];
    if n == 0 {
      assert a + b[..n] == a;
    } else {
      JoinConcat(a, b[..n]);
    }
  }

  /** The system text of two lists of messages is that of the one, a blank line and that of the other,
      or the one that is not empty. */
  lemma SystemTextIsJoined(a: seq<Message>, b: seq<Message>)
    ensures var one, other := JoinBlankLine(SystemTexts(a)), JoinBlankLine(SystemTexts(b));
            JoinBlankLine(SystemTexts(a + b))
            == if one == "" then other else if other == "" then one else one + "\n\n" + other
  {
    SystemTextsConcat(a, b);
    JoinIsEmpty(SystemTexts(a));
    JoinIsEmpty(SystemTexts(b));
    if SystemTexts(a) == [] {
      assert SystemTexts(a + b) == SystemTexts(b);
    } else if SystemTexts(b) == [] {
      assert SystemTexts(a + b) == SystemTexts(a);
    } else {
      JoinConcat(SystemTexts(a), SystemTexts(b));
    }
  }

  // ---------- order ----------

  /** Every message that is sent keeps its place: message k is the one after those sent for the
      messages before it, and nothing else is sent. */
  lemma {:induction false} OrderIsKept(ms: seq<Message>, k: nat, ids: nat -> string)
    requires k < |ms| && forall i :: 0 <= i < |ms| ==> Parses(ms[i])
    ensures var before, wire := Wires(ms[..k], ids), WireOf(ms, k, ids);
            Wires(ms[..k + 1], ids) == before + (if wire.Some? then [wire.value] else [])
            && Wires(ms[..k + 1], ids) <= Wires(ms, ids)
  {
    if k == |ms| - 1 {
      assert ms[..k + 1] == ms;
    } else {
      var n := |ms| - 1;
      OrderIsKept(ms[..n], k, ids);
      assert ms[..n][..k] == ms[..k] && ms[..n][..k + 1] == ms[..k + 1];
    }
  }

  // ---------- toWireMessages ----------

  /** The map from call ids to names holds what a search through the calls finds. */
  ghost predicate Indexes(names: map<string, string>, calls: seq<ToolCall>) {
    forall id :: NameOf(calls, id) == if id in names then names[id] else ""
  }

  lemma OneMoreCall(names: map<string, string>, earlier: seq<ToolCall>, sent: seq<ToolCall>, call: ToolCall)
    requires Indexes(names, earlier + sent)
    ensures Indexes(names[call.id := call.name], earlier + (sent + [call]))
  {
    var calls := earlier + sent;
    assert earlier + (sent + [call]) == calls + [call];
    assert (calls + [call])[..|calls|] == calls;
  }

  /** What SendCalls knows after some calls of a message. */
  ghost predicate Sending(calls: seq<ToolCall>, first: nat, ids: nat -> string, earlier: seq<ToolCall>,
                          parts: seq<Part>, drawn: nat, names: map<string, string>) {
    && CallsParse(calls) && parts == CallParts(Sent(calls, first, ids)) && drawn == first + DrawnBy(calls)
    && Indexes(names, earlier + Sent(calls, first, ids))
  }

  lemma SendOneMore(calls: seq<ToolCall>, call: ToolCall, first: nat, ids: nat -> string, earlier: seq<ToolCall>,
                    parts: seq<Part>, drawn: nat, names: map<string, string>)
    requires Sending(calls, first, ids, earlier, parts, drawn, names) && call.input.Some?
    ensures var id := if call.id == "" then ids(drawn) else call.id;
            Sending(calls + [call], first, ids, earlier, parts + [CallPart(id, call.name, call.input.value)],
                    if call.id == "" then drawn + 1 else drawn, names[id := call.name])
  {
    var before := Sent(calls, first, ids);
    var sent := call.(id := if call.id == "" then ids(drawn) else call.id);
    SentOneMore(calls, call, first, ids);
    PartsOneMore(before, sent);
    ParseOneMore(calls, call);
    OneMoreCall(names, earlier, before, sent);
  }

  lemma ParseOneMore(calls: seq<ToolCall>, call: ToolCall)
    requires CallsParse(calls) && call.input.Some?
    ensures CallsParse(calls + [call])
  {
  }

  lemma SentOneMore(calls: seq<ToolCall>, call: ToolCall, first: nat, ids: nat -> string)
    ensures DrawnBy(calls + [call]) == DrawnBy(calls) + if call.id == "" then 1 else 0
    ensures Sent(calls + [call], first, ids) ==
            Sent(calls, first, ids) + [call.(id := if call.id == "" then ids(first + DrawnBy(calls)) else call.id)]
  {
    assert (calls + [call])[..|calls|] == calls;
  }

  lemma PartsOneMore(sent: seq<ToolCall>, call: ToolCall)
    requires CallsParse(sent) && call.input.Some?
    ensures CallsParse(sent + [call])
    ensures CallParts(sent + [call]) == CallParts(sent) + [CallPart(call.id, call.name, call.input.value)]
  {
    assert (sent + [call])[..|sent|] == sent;
  }

  /** The tool calls of one assistant message; None when one has malformed arguments. */
  method SendCalls(calls: seq<ToolCall>, drawn: nat, names: map<string, string>, ids: nat -> string,
                   ghost earlier: seq<ToolCall>)
    returns (parts: Option<seq<Part>>, drawn': nat, names': map<string, string>)
    requires Indexes(names, earlier)
    ensures parts.Some? <==> CallsParse(calls)
    ensures parts.Some? ==> Sending(calls, drawn, ids, earlier, parts.value, drawn', names')
  {
    var out: seq<Part> := [];
    drawn', names' := drawn, names;
    assert earlier + [] == earlier;
    for i := 0 to |calls|
      invariant Sending(calls[..i], drawn, ids, earlier, out, drawn', names')
    {
      var call := calls[i];
      if call.input.None? { return None, drawn', names'; }
      SendOneMore(calls[..i], call, drawn, ids, earlier, out, drawn', names');
      assert calls[..i + 1] == calls[..i] + [call];
      var id := call.id;
      if id == "" {
        id := ids(drawn');
        drawn' := drawn' + 1;
      }
      names' := names'[id := call.name];
      out := out + [CallPart(id, call.name, call.input.value)];
    }
    assert calls[..|calls|] == calls;
    parts := Some(out);
  }

  /** What toWireMessages knows after some messages. */
  ghost predicate Wired(ms: seq<Message>, ids: nat -> string,
                        system: string, out: seq<WireMessage>, names: map<string, string>, drawn: nat) {
    && (forall k :: 0 <= k < |ms| ==> Parses(ms[k]))
    && system == JoinBlankLine(SystemTexts(ms)) && out == Wires(ms, ids)
    && Indexes(names, AllCalls(ms, ids)) && drawn == Drawn(ms)
  }

  lemma WireOneMore(ms: seq<Message>, m: Message, ids: nat -> string)
    requires Parses(m) && forall k :: 0 <= k < |ms| ==> Parses(ms[k])
    ensures var more := ms + [m];
            var wire := WireOf(more, |ms|, ids);
            && (forall k :: 0 <= k < |more| ==> Parses(more[k]))
            && Wires(more, ids) == Wires(ms, ids) + (if wire.Some? then [wire.value] else [])
            && AllCalls(more, ids) ==
               (if m.AssistantMessage? then AllCalls(ms, ids) + Sent(m.calls, Drawn(ms), ids) else AllCalls(ms, ids))
            && Drawn(more) == (if m.AssistantMessage? then Drawn(ms) + DrawnBy(m.calls) else Drawn(ms))
            && SystemTexts(more) ==
               (if m.SystemMessage? && m.text != "" then SystemTexts(ms) + [m.text] else SystemTexts(ms))
  {
    assert (ms + [m])[..|ms|] == ms;
    assert AllCalls(ms, ids) + [] == AllCalls(ms, ids) && SystemTexts(ms) + [] == SystemTexts(ms);
  }

  lemma OneMoreText(texts: seq<string>, text: string)
    requires forall t :: t in texts ==> t != ""
    ensures JoinBlankLine(texts + [text]) ==
            if JoinBlankLine(texts) == "" then text else JoinBlankLine(texts) + "\n\n" + text
  {
    JoinIsEmpty(texts);
    assert (texts + [text])[..|texts|] == texts;
  }

  /** One message. */
  method Wire(m: Message, ids: nat -> string, system: string, names: map<string, string>, drawn: nat,
              ghost ms: seq<Message>, ghost out: seq<WireMessage>)
    returns (ok: bool, system': string, wire: Option<WireMessage>, names': map<string, string>, drawn': nat)
    requires Wired(ms, ids, system, out, names, drawn)
    ensures ok == Parses(m)
    ensures ok ==> Wired(ms + [m], ids, system', out + (if wire.Some? then [wire.value] else []), names', drawn')
  {
    ok, system', wire, names', drawn' := true, system, None, names, drawn;
    if Parses(m) { WireOneMore(ms, m, ids); }
    assert (ms + [m])[..|ms|] == ms;
    match m
    case SystemMessage(text) =>
      if text != "" {
        OneMoreText(SystemTexts(ms), text);
        if |system'| > 0 { system' := system' + "\n\n"; }
        system' := system' + text;
      }
    case AssistantMessage(reasoning, text, calls) =>
      var parts := [];
      if reasoning != "" { parts := parts + [ReasoningPart(reasoning)]; }
      if text != "" { parts := parts + [TextPart(text)]; }
      assert parts == HeadParts(reasoning, text);
      var sent;
      sent, drawn', names' := SendCalls(calls, drawn, names, ids, AllCalls(ms, ids));
      if sent.None? {
        ok := false;
        return;
      }
      wire := Some(WireAssistant(parts + sent.value));
    case ToolMessage(id, name, value) =>
      var toolName := name;
      if toolName == "" { toolName := if id in names then names[id] else ""; }
      if toolName == "" { toolName := "unknown"; }
      wire := Some(WireTool(id, toolName, value));
    case UserMessage(parts) =>
      if |parts| > 0 { wire := Some(WireUser(parts)); }
  }

  /** toWireMessages: system text and messages, or None when any tool arguments are malformed. */
  method ToWireMessages(ms: seq<Message>, ids: nat -> string) returns (result: Option<(string, seq<WireMessage>)>)
    ensures result.Some? <==> forall i :: 0 <= i < |ms| ==> Parses(ms[i])
    ensures result.Some? ==> result.value == (JoinBlankLine(SystemTexts(ms)), Wires(ms, ids))
  {
    var system: string, out: seq<WireMessage>, names: map<string, string>, drawn := "", [], map[], 0;
    for i := 0 to |ms|
      invariant Wired(ms[..i], ids, system, out, names, drawn)
    {
      var ok, wire;
      assert ms[..i + 1] == ms[..i] + [ms[i]];
      ok, system, wire, names, drawn := Wire(ms[i], ids, system, names, drawn, ms[..i], out);
      if !ok { return None; }
      if wire.Some? { out := out + [wire.value]; }
    }
    assert ms[..|ms|] == ms;
    result := Some((system, out));
  }
}
