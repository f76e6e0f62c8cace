/** explicitSessionKey of go/session.go: a session is reused across requests only on explicit and
    consistent evidence of which conversation a request belongs to. */
module Identity {
  import opened Wrappers
  import opened Text

  /** JSON as the decoder's tokens give it; an object keeps repeated names. A text with a syntax error
      anywhere is Malformed as a whole. */
  datatype Json = Str(text: string) | Null | Object(fields: seq<(string, Json)>) | Other | Malformed

  /** An executor request, as far as it identifies a conversation. Empty bodies are None. */
  datatype Request = Request(
    callerScope: Option<Json>, authId: string, headers: map<string, seq<string>>,
    executionSession: Option<Json>, original: Option<Json>, payload: Option<Json>)

  datatype SessionKey = SessionKey(caller: string, auth: string, id: string)

  const HEADER_NAMES: set<string> := {
    "x-session-id", "session-id", "session_id", "x-http-session-id",
    "x-claude-code-session-id", "x-conversation-id", "x-thread-id", "thread-id"}
  const FIELD_NAMES: seq<string> := [
    "session_id", "sessionId", "sessionID", "thread_id", "threadId",
    "conversation_id", "conversationId", "chat_id", "chatId"]
  const NESTED_NAMES: seq<string> := ["session_id", "thread_id", "conversation_id"]
  const CONTAINERS: seq<string> := ["metadata", "extra_body"]

  // ---------- values ----------

  predicate IsControl(c: char) {
    c <= '\U{1F}' || '\U{7F}' <= c <= '\U{9F}'
  }

  /** Length in UTF-8. */
  function ByteLength(s: string): nat {
    if s == "" then 0
    else
      var c := s[|s| - 1];
      ByteLength(s[..|s| - 1])
      + if c < '\U{80}' then 1 else if c < '\U{800}' then 2 else if c < '\U{10000}' then 3 else 4
  }

  predicate ValidSessionValue(v: string) {
    v != "" && ByteLength(v) <= 256 && TrimSpace(v) == v && forall c :: c in v ==> !IsControl(c)
  }

  // ---------- what the evidence is ----------

  /** One value, without a comma. */
  predicate SingleValue(values: seq<string>) {
    |values| == 1 && ',' !in values[0]
  }

  /** No recognised header comes twice, in whatever case, or with more than one value. */
  ghost predicate HeadersSound(headers: map<string, seq<string>>, names: set<string>) {
    && (forall n :: n in headers && Lower(n) in names ==> SingleValue(headers[n]))
    && (forall a, b :: a in headers && b in headers && Lower(a) == Lower(b) && Lower(a) in names ==> a == b)
  }

  ghost function HeaderEvidence(headers: map<string, seq<string>>, names: set<string>): set<Json> {
    set n | n in headers && Lower(n) in names && SingleValue(headers[n]) :: Str(headers[n][0])
  }

  predicate DistinctFields(fields: seq<(string, Json)>) {
    forall i, j :: 0 <= i < j < |fields| ==> fields[i].0 != fields[j].0
  }

  function FieldMap(fields: seq<(string, Json)>): map<string, Json> {
    if fields == [] then map[]
    else FieldMap(fields[..|fields| - 1])[fields[|fields| - 1].0 := fields[|fields| - 1].1]
  }

  /** An object none of whose names is repeated (section 4 of RFC 8259). */
  predicate SoundObject(j: Json) {
    j.Object? && DistinctFields(j.fields)
  }

  /** The evidence so far and the values of the named fields that are there. */
  ghost function WithFields(evidence: set<Json>, m: map<string, Json>, names: seq<string>): set<Json> {
    if names == [] then evidence
    else
      var name := names[|names| - 1];
      WithFields(evidence, m, names[..|names| - 1]) + if name in m then {m[name]} else {}
  }

  /** A container is looked into unless it is absent or null. */
  predicate Looked(m: map<string, Json>, container: string) {
    container in m && !m[container].Null?
  }

  ghost predicate ContainersSound(m: map<string, Json>, containers: seq<string>) {
    forall c :: c in containers && Looked(m, c) ==> SoundObject(m[c])
  }

  /** The evidence so far and what the containers hold. */
  ghost function WithContainers(evidence: set<Json>, m: map<string, Json>, containers: seq<string>,
                                names: seq<string>): set<Json> {
    if containers == [] then evidence
    else
      var c := containers[|containers| - 1];
      var before := WithContainers(evidence, m, containers[..|containers| - 1], names);
      if Looked(m, c) && SoundObject(m[c]) then WithFields(before, FieldMap(m[c].fields), names) else before
  }

  function Body(req: Request): Option<Json> {
    if req.original.Some? then req.original else req.payload
  }

  ghost predicate BodySound(body: Option<Json>) {
    body.Some? ==> SoundObject(body.value) && ContainersSound(FieldMap(body.value.fields), CONTAINERS)
  }

  ghost predicate Sound(req: Request) {
    HeadersSound(req.headers, HEADER_NAMES) && BodySound(Body(req))
  }

  ghost function WithBody(evidence: set<Json>, body: Option<Json>): set<Json> {
    if body.None? || !body.value.Object? then evidence
    else
      var m := FieldMap(body.value.fields);
      WithContainers(WithFields(evidence, m, FIELD_NAMES), m, CONTAINERS, NESTED_NAMES)
  }

  /** All a request says about its conversation: in headers, metadata and body. */
  ghost function Evidence(req: Request): set<Json> {
    var headers := HeaderEvidence(req.headers, HEADER_NAMES);
    WithBody(if req.executionSession.Some? then headers + {req.executionSession.value} else headers, Body(req))
  }

  /** The key of a request: scope and account are valid, no evidence is malformed or repeated, and all
      of it, at least one piece, is one and the same valid string. */
  ghost predicate IsKey(req: Request, key: SessionKey) {
    && req.callerScope == Some(Str(key.caller)) && ValidSessionValue(key.caller)
    && req.authId == key.auth && ValidSessionValue(key.auth)
    && Sound(req)
    && Evidence(req) == {Str(key.id)} && ValidSessionValue(key.id)
  }

  lemma SameBodySameKey(req: Request, like: Request, key: SessionKey)
    requires like == req.(original := like.original, payload := like.payload) && Body(req) == Body(like)
    ensures IsKey(req, key) <==> IsKey(like, key)
  {
    assert Sound(req) <==> Sound(like);
    assert Evidence(req) == Evidence(like);
  }

  /** The original request, where there is one, is the only body that counts; without one the payload
      counts as an original would. */
  lemma OriginalGoesFirst(req: Request, other: Option<Json>, key: SessionKey)
    ensures req.original.Some? ==> (IsKey(req, key) <==> IsKey(req.(payload := other), key))
    ensures req.original.None? && req.payload.Some? ==>
              (IsKey(req, key) <==> IsKey(req.(original := req.payload, payload := other), key))
  {
    if req.original.Some? {
      SameBodySameKey(req, req.(payload := other), key);
    } else if req.payload.Some? {
      SameBodySameKey(req, req.(original := req.payload, payload := other), key);
    }
  }

  // ---------- the evidence piece by piece ----------

  /** One of the named fields has this value. */
  predicate Says(m: map<string, Json>, names: seq<string>, j: Json) {
    exists name :: name in names && name in m && m[name] == j
  }

  /** One of the containers is an object that says so. */
  predicate SaysInside(m: map<string, Json>, containers: seq<string>, names: seq<string>, j: Json) {
    exists c :: c in containers && c in m && SoundObject(m[c]) && Says(FieldMap(m[c].fields), names, j)
  }

  predicate BodySays(body: Option<Json>, j: Json) {
    body.Some? && body.value.Object?
    && var m := FieldMap(body.value.fields);
       Says(m, FIELD_NAMES, j) || SaysInside(m, CONTAINERS, NESTED_NAMES, j)
  }

  predicate HeaderSays(headers: map<string, seq<string>>, j: Json) {
    exists n :: n in headers && Lower(n) in HEADER_NAMES && SingleValue(headers[n]) && j == Str(headers[n][0])
  }

  lemma {:induction false} FieldsSay(evidence: set<Json>, m: map<string, Json>, names: seq<string>, j: Json)
    ensures j in WithFields(evidence, m, names) <==> j in evidence || Says(m, names, j)
  {
    if names != [] {
      var before, name := names[..|names| - 1], names[|names| - 1];
      FieldsSay(evidence, m, before, j);
      assert forall x :: x in names <==> x in before || x == name;
    }
  }

  lemma {:induction false} ContainersSay(evidence: set<Json>, m: map<string, Json>, containers: seq<string>,
                                         names: seq<string>, j: Json)
    ensures j in WithContainers(evidence, m, containers, names)
            <==> j in evidence || SaysInside(m, containers, names, j)
  {
    if containers != [] {
      var before, c := containers[..|containers| - 1], containers[|containers| - 1];
      ContainersSay(evidence, m, before, names, j);
      assert forall x :: x in containers <==> x in before || x == c;
      if c in m && SoundObject(m[c]) {
        FieldsSay(WithContainers(evidence, m, before, names), FieldMap(m[c].fields), names, j);
      }
    }
  }

  lemma BodySaid(evidence: set<Json>, body: Option<Json>, j: Json)
    ensures j in WithBody(evidence, body) <==> j in evidence || BodySays(body, j)
  {
    if body.Some? && body.value.Object? {
      var m := FieldMap(body.value.fields);
      FieldsSay(evidence, m, FIELD_NAMES, j);
      ContainersSay(WithFields(evidence, m, FIELD_NAMES), m, CONTAINERS, NESTED_NAMES, j);
    }
  }

  /** The whole evidence of a request, piece by piece: the recognised headers, the metadata, and the
      fields at the top and inside the containers of the original request, or else of the payload. */
  lemma EvidenceIs(req: Request, j: Json)
    ensures j in Evidence(req) <==>
              || HeaderSays(req.headers, j) || req.executionSession == Some(j)
              || BodySays(if req.original.Some? then req.original else req.payload, j)
  {
    var headers := HeaderEvidence(req.headers, HEADER_NAMES);
    BodySaid(if req.executionSession.Some? then headers + {req.executionSession.value} else headers, Body(req), j);
  }

  /** A request has a key only if something says so, and whatever says anything says the same: each
      recognised header, the metadata, and each named field at the top or inside a container. */
  lemma KeyIsUnanimous(req: Request, key: SessionKey)
    requires IsKey(req, key)
    ensures var body := if req.original.Some? then req.original else req.payload;
            var id := Str(key.id);
            && (HeaderSays(req.headers, id) || req.executionSession == Some(id) || BodySays(body, id))
            && (forall n :: n in req.headers && Lower(n) in HEADER_NAMES ==> req.headers[n] == [key.id])
            && (req.executionSession.Some? ==> req.executionSession == Some(id))
            && (forall j :: BodySays(body, j) ==> j == id)
  {
    var body := if req.original.Some? then req.original else req.payload;
    EvidenceIs(req, Str(key.id));
    forall n | n in req.headers && Lower(n) in HEADER_NAMES
      ensures req.headers[n] == [key.id]
    {
      EvidenceIs(req, Str(req.headers[n][0]));
      assert SingleValue(req.headers[n]);
    }
    if req.executionSession.Some? { EvidenceIs(req, req.executionSession.value); }
    forall j | BodySays(body, j)
      ensures j == Str(key.id)
    {
      EvidenceIs(req, j);
    }
  }

  // ---------- the identity found so far ----------

  /** The identity is what some evidence says; "" is none yet. */
  ghost predicate Agreed(evidence: set<Json>, identity: string) {
    if identity == "" then evidence == {} else ValidSessionValue(identity) && evidence == {Str(identity)}
  }

  predicate Clash(a: Json, b: Json) {
    !a.Str? || !ValidSessionValue(a.text) || a != b
  }

  /** Some of the evidence is not a valid string, or two pieces differ. */
  ghost predicate Hopeless(evidence: set<Json>) {
    exists a, b :: a in evidence && b in evidence && Clash(a, b)
  }

  /** add: the identity with one more piece of evidence, None when it is invalid or differs. */
  method Add(v: Json, identity: string, ghost evidence: set<Json>) returns (next: Option<string>)
    requires Agreed(evidence, identity)
    ensures if next.Some? then next.value != "" && Agreed(evidence + {v}, next.value) else Hopeless(evidence + {v})
  {
    if !v.Str? || !ValidSessionValue(v.text) || (identity != "" && identity != v.text) {
      Refuted(v, identity, evidence);
      return None;
    }
    Confirmed(v, identity, evidence);
    next := Some(v.text);
  }

  lemma Confirmed(v: Json, identity: string, evidence: set<Json>)
    requires Agreed(evidence, identity) && v.Str? && ValidSessionValue(v.text) && (identity == "" || identity == v.text)
    ensures v.text != "" && Agreed(evidence + {v}, v.text)
  {
  }

  lemma Refuted(v: Json, identity: string, evidence: set<Json>)
    requires Agreed(evidence, identity)
    requires !v.Str? || !ValidSessionValue(v.text) || (identity != "" && identity != v.text)
    ensures Hopeless(evidence + {v})
  {
    assert v in evidence + {v} && Clash(v, if identity == "" then v else Str(identity));
  }

  lemma MoreIsHopeless(evidence: set<Json>, all: set<Json>)
    requires Hopeless(evidence) && evidence <= all
    ensures Hopeless(all)
  {
  }

  // ---------- reading the evidence ----------

  function Recognised(headers: map<string, seq<string>>, names: set<string>): set<string> {
    set n | n in headers && Lower(n) in names :: Lower(n)
  }

  lemma OneMoreHeader(part: map<string, seq<string>>, names: set<string>, name: string, values: seq<string>)
    requires name !in part
    ensures var more := part[name := values];
            if Lower(name) !in names then
              (HeadersSound(part, names) ==> HeadersSound(more, names))
              && HeaderEvidence(more, names) == HeaderEvidence(part, names)
              && Recognised(more, names) == Recognised(part, names)
            else
              Recognised(more, names) == Recognised(part, names) + {Lower(name)}
  {
    var more := part[name := values];
    assert forall n :: n in more <==> n in part || n == name;
    assert forall n :: n in part ==> more[n] == part[n];
  }

  lemma OneMoreEvidence(part: map<string, seq<string>>, names: set<string>, name: string, values: seq<string>)
    requires name !in part && Lower(name) in names && HeadersSound(part, names)
    ensures var more := part[name := values];
            && (HeadersSound(more, names) <==> Lower(name) !in Recognised(part, names) && SingleValue(values))
            && (SingleValue(values) ==> HeaderEvidence(more, names) == HeaderEvidence(part, names) + {Str(values[0])})
  {
    var more := part[name := values];
    assert forall n :: n in more <==> n in part || n == name;
    assert forall n :: n in part ==> more[n] == part[n];
    if Lower(name) in Recognised(part, names) {
      var n :| n in part && Lower(n) in names && Lower(n) == Lower(name);
      assert n in more && name in more;
    }
  }

  lemma WholeHeaders(part: map<string, seq<string>>, headers: map<string, seq<string>>, names: set<string>)
    requires forall n :: n in part ==> n in headers && headers[n] == part[n]
    ensures HeadersSound(headers, names) ==> HeadersSound(part, names)
    ensures HeaderEvidence(part, names) <= HeaderEvidence(headers, names)
  {
  }

  /** What the loop knows after some headers. */
  ghost predicate HeadersRead(part: map<string, seq<string>>, names: set<string>, seen: set<string>, found: string) {
    HeadersSound(part, names) && Agreed(HeaderEvidence(part, names), found) && seen == Recognised(part, names)
  }

  ghost predicate HeadersRefused(headers: map<string, seq<string>>, names: set<string>) {
    !HeadersSound(headers, names) || Hopeless(HeaderEvidence(headers, names))
  }

  lemma RefusedEarly(headers: map<string, seq<string>>, left: set<string>, names: set<string>)
    requires HeadersRefused(headers - left, names)
    ensures HeadersRefused(headers, names)
  {
    WholeHeaders(headers - left, headers, names);
    if Hopeless(HeaderEvidence(headers - left, names)) {
      MoreIsHopeless(HeaderEvidence(headers - left, names), HeaderEvidence(headers, names));
    }
  }

  lemma NothingRead(headers: map<string, seq<string>>, names: set<string>)
    ensures HeadersRead(headers - headers.Keys, names, {}, "")
  {
  }

  lemma AllRead(headers: map<string, seq<string>>, names: set<string>, seen: set<string>, found: string)
    requires HeadersRead(headers - {}, names, seen, found)
    ensures HeadersSound(headers, names) && Agreed(HeaderEvidence(headers, names), found)
  {
    assert headers - {} == headers;
  }

  lemma OneLess<V>(m: map<string, V>, left: set<string>, name: string)
    requires name in left && name in m
    ensures m - (left - {name}) == (m - left)[name := m[name]]
  {
  }

  /** One header: skipped unless recognised; then it must be new, single and in agreement. */
  method ReadHeader(name: string, values: seq<string>, names: set<string>, seen: set<string>, found: string,
                    ghost part: map<string, seq<string>>)
    returns (next: Option<string>, seen': set<string>)
    requires HeadersRead(part, names, seen, found) && name !in part
    ensures if next.Some? then HeadersRead(part[name := values], names, seen', next.value)
            else HeadersRefused(part[name := values], names)
  {
    seen' := seen;
    OneMoreHeader(part, names, name, values);
    if Lower(name) !in names { return Some(found), seen; }
    OneMoreEvidence(part, names, name, values);
    if Lower(name) in seen || |values| != 1 || ',' in values[0] { return None, seen; }
    next := Add(Str(values[0]), found, HeaderEvidence(part, names));
    seen' := seen + {Lower(name)};
  }

  /** The loop over the headers, in whatever order the map is traversed. */
  method ReadHeaders(headers: map<string, seq<string>>, names: set<string>) returns (identity: Option<string>)
    ensures identity.Some? ==> HeadersSound(headers, names) && Agreed(HeaderEvidence(headers, names), identity.value)
    ensures identity.None? ==> HeadersRefused(headers, names)
  {
    var left, seen: set<string>, found := headers.Keys, {}, "";
    NothingRead(headers, names);
    while left != {}
      invariant left <= headers.Keys && HeadersRead(headers - left, names, seen, found)
      decreases left
    {
      var name :| name in left;
      OneLess(headers, left, name);
      identity, seen := ReadHeader(name, headers[name], names, seen, found, headers - left);
      left := left - {name};
      if identity.None? {
        RefusedEarly(headers, left, names);
        return;
      }
      found := identity.value;
    }
    AllRead(headers, names, seen, found);
    identity := Some(found);
  }

  lemma {:induction false} FieldMapHas(fields: seq<(string, Json)>, name: string)
    ensures name in FieldMap(fields) <==> exists i :: 0 <= i < |fields| && fields[i].0 == name
  {
    if fields != [] {
      var before := fields[..|fields| - 1];
      FieldMapHas(before, name);
      assert forall i :: 0 <= i < |before| ==> fields[i] == before[i];
    }
  }

  /** objectFields: the fields of an object, None for anything else and for repeated names. */
  method ObjectFields(j: Json) returns (m: Option<map<string, Json>>)
    ensures m == if SoundObject(j) then Some(FieldMap(j.fields)) else None
  {
    if !j.Object? { return None; }
    var out: map<string, Json> := map[];
    for i := 0 to |j.fields|
      invariant DistinctFields(j.fields[..i]) && out == FieldMap(j.fields[..i])
    {
      var before := j.fields[..i];
      assert j.fields[..i + 1][..i] == before;
      FieldMapHas(before, j.fields[i].0);
      if j.fields[i].0 in out {
        assert !DistinctFields(j.fields);
        return None;
      }
      out := out[j.fields[i].0 := j.fields[i].1];
    }
    assert j.fields[..|j.fields|] == j.fields;
    m := Some(out);
  }

  lemma {:induction false} FieldsGrow(evidence: set<Json>, m: map<string, Json>, names: seq<string>, i: nat)
    requires i <= |names|
    ensures WithFields(evidence, m, names[..i]) <= WithFields(evidence, m, names)
  {
    if i == |names| {
      assert names[..i] == names;
    } else {
      var before := names[..|names| - 1];
      FieldsGrow(evidence, m, before, i);
      assert before[..i] == names[..i];
    }
  }

  lemma {:induction false} ContainersGrow(evidence: set<Json>, m: map<string, Json>, containers: seq<string>,
                                          names: seq<string>, i: nat)
    requires i <= |containers|
    ensures WithContainers(evidence, m, containers[..i], names) <= WithContainers(evidence, m, containers, names)
  {
    if i == |containers| {
      assert containers[..i] == containers;
    } else {
      var before, c := containers[..|containers| - 1], containers[|containers| - 1];
      ContainersGrow(evidence, m, before, names, i);
      assert before[..i] == containers[..i];
      if Looked(m, c) && SoundObject(m[c]) {
        FieldsGrow(WithContainers(evidence, m, before, names), FieldMap(m[c].fields), names, 0);
      }
    }
  }

  method ReadField(m: map<string, Json>, name: string, identity: string, ghost evidence: set<Json>)
    returns (next: Option<string>)
    requires Agreed(evidence, identity)
    ensures var more := evidence + if name in m then {m[name]} else {};
            if next.Some? then Agreed(more, next.value) else Hopeless(more)
  {
    assert evidence + {} == evidence;
    if name !in m { return Some(identity); }
    next := Add(m[name], identity, evidence);
  }

  /** read: the values of the named fields that are there. */
  method ReadFields(m: map<string, Json>, names: seq<string>, identity: string, ghost evidence: set<Json>)
    returns (next: Option<string>)
    requires Agreed(evidence, identity)
    ensures next.Some? ==> Agreed(WithFields(evidence, m, names), next.value)
    ensures next.None? ==> Hopeless(WithFields(evidence, m, names))
  {
    var found := identity;
    for i := 0 to |names|
      invariant Agreed(WithFields(evidence, m, names[..i]), found)
    {
      assert names[..i + 1][..i] == names[..i];
      next := ReadField(m, names[i], found, WithFields(evidence, m, names[..i]));
      if next.None? {
        FieldsGrow(evidence, m, names, i + 1);
        MoreIsHopeless(WithFields(evidence, m, names[..i + 1]), WithFields(evidence, m, names));
        return;
      }
      found := next.value;
    }
    assert names[..|names|] == names;
    next := Some(found);
  }

  /** One container: absent and null ones are passed over, others must be sound objects. */
  method ReadContainer(m: map<string, Json>, c: string, names: seq<string>, identity: string, ghost evidence: set<Json>)
    returns (next: Option<string>, sound: bool)
    requires Agreed(evidence, identity)
    ensures sound == (Looked(m, c) ==> SoundObject(m[c]))
    ensures var more := if Looked(m, c) && SoundObject(m[c])
                        then WithFields(evidence, FieldMap(m[c].fields), names)
                        else evidence;
            if next.Some? then sound && Agreed(more, next.value) else !sound || Hopeless(more)
  {
    if c !in m || m[c].Null? { return Some(identity), true; }
    var nested := ObjectFields(m[c]);
    if nested.None? { return None, false; }
    sound := true;
    next := ReadFields(nested.value, names, identity, evidence);
  }

  /** The containers of the body, in order. */
  method ReadContainers(m: map<string, Json>, containers: seq<string>, names: seq<string>, identity: string,
                        ghost evidence: set<Json>)
    returns (next: Option<string>)
    requires Agreed(evidence, identity)
    ensures next.Some? ==>
      ContainersSound(m, containers) && Agreed(WithContainers(evidence, m, containers, names), next.value)
    ensures next.None? ==> !ContainersSound(m, containers) || Hopeless(WithContainers(evidence, m, containers, names))
  {
    var found := identity;
    for i := 0 to |containers|
      invariant ContainersSound(m, containers[..i])
      invariant Agreed(WithContainers(evidence, m, containers[..i], names), found)
    {
      assert containers[..i + 1][..i] == containers[..i];
      var sound;
      next, sound := ReadContainer(m, containers[i], names, found, WithContainers(evidence, m, containers[..i], names));
      if next.None? {
        ContainersGrow(evidence, m, containers, names, i + 1);
        if sound {
          MoreIsHopeless(WithContainers(evidence, m, containers[..i + 1], names),
                         WithContainers(evidence, m, containers, names));
        }
        return;
      }
      found := next.value;
    }
    assert containers[..|containers|] == containers;
    next := Some(found);
  }

  /** The part of explicitSessionKey that looks into the body, if there is one. */
  method ReadBody(body: Option<Json>, identity: string, ghost evidence: set<Json>) returns (next: Option<string>)
    requires Agreed(evidence, identity)
    ensures next.Some? ==> BodySound(body) && Agreed(WithBody(evidence, body), next.value)
    ensures next.None? ==> !BodySound(body) || Hopeless(WithBody(evidence, body))
  {
    if body.None? { return Some(identity); }
    var m := ObjectFields(body.value);
    if m.None? { return None; }
    next := ReadFields(m.value, FIELD_NAMES, identity, evidence);
    ghost var fields := WithFields(evidence, m.value, FIELD_NAMES);
    if next.None? {
      ContainersGrow(fields, m.value, CONTAINERS, NESTED_NAMES, 0);
      MoreIsHopeless(fields, WithBody(evidence, body));
      return;
    }
    next := ReadContainers(m.value, CONTAINERS, NESTED_NAMES, next.value, fields);
  }

  lemma BodyGrows(evidence: set<Json>, body: Option<Json>)
    ensures evidence <= WithBody(evidence, body)
  {
    if body.Some? && body.value.Object? {
      var m := FieldMap(body.value.fields);
      FieldsGrow(evidence, m, FIELD_NAMES, 0);
      ContainersGrow(WithFields(evidence, m, FIELD_NAMES), m, CONTAINERS, NESTED_NAMES, 0);
    }
  }

  lemma OneVoice(evidence: set<Json>, id: string, identity: Option<string>)
    requires evidence == {Str(id)} && ValidSessionValue(id)
    requires if identity.Some? then Agreed(evidence, identity.value) else Hopeless(evidence)
    ensures identity == Some(id) && id != ""
  {
    assert Str(id) in evidence;
  }

  /** What the reading of the evidence decides. */
  lemma EvidenceDecides(req: Request, identity: Option<string>, key: SessionKey)
    requires identity.Some? ==> Sound(req) && Agreed(Evidence(req), identity.value)
    requires identity.None? ==> !Sound(req) || Hopeless(Evidence(req))
    requires IsKey(req, key)
    ensures identity == Some(key.id) && key.id != ""
  {
    OneVoice(Evidence(req), key.id, identity);
  }

  lemma ScopeDecides(req: Request, key: SessionKey)
    requires IsKey(req, key)
    ensures req.callerScope == Some(Str(key.caller)) && ValidSessionValue(key.caller) && ValidSessionValue(req.authId)
  {
  }

  /** explicitSessionKey. It finds the key exactly when there is one; and since a key is defined by
      the headers as a map, the order in which they are traversed plays no part. */
  method ExplicitSessionKey(req: Request) returns (key: Option<SessionKey>)
    ensures key.Some? ==> IsKey(req, key.value)
    ensures key.None? ==> forall k :: !IsKey(req, k)
  {
    forall k | IsKey(req, k)
      ensures req.callerScope == Some(Str(k.caller)) && ValidSessionValue(k.caller) && ValidSessionValue(req.authId)
    {
      ScopeDecides(req, k);
    }
    if req.callerScope.None? || !req.callerScope.value.Str? { return None; }
    var caller := req.callerScope.value.text;
    if !ValidSessionValue(caller) || !ValidSessionValue(req.authId) { return None; }
    var identity := ReadEvidence(req);
    forall k | IsKey(req, k)
      ensures identity == Some(k.id) && k.id != ""
    {
      EvidenceDecides(req, identity, k);
    }
    if identity.None? || identity.value == "" { return None; }
    key := Some(SessionKey(caller, req.authId, identity.value));
  }

  lemma EarlierEvidence(req: Request)
    ensures var headers := HeaderEvidence(req.headers, HEADER_NAMES);
            && headers <= Evidence(req)
            && (req.executionSession.Some? ==> headers + {req.executionSession.value} <= Evidence(req))
  {
    var headers := HeaderEvidence(req.headers, HEADER_NAMES);
    BodyGrows(if req.executionSession.Some? then headers + {req.executionSession.value} else headers, Body(req));
  }

  /** Headers, metadata and body, one after another. */
  method ReadEvidence(req: Request) returns (identity: Option<string>)
    ensures identity.Some? ==> Sound(req) && Agreed(Evidence(req), identity.value)
    ensures identity.None? ==> !Sound(req) || Hopeless(Evidence(req))
  {
    ghost var headers := HeaderEvidence(req.headers, HEADER_NAMES);
    EarlierEvidence(req);
    identity := ReadHeaders(req.headers, HEADER_NAMES);
    if identity.None? {
      if Hopeless(headers) { MoreIsHopeless(headers, Evidence(req)); }
      return;
    }
    if req.executionSession.Some? {
      identity := Add(req.executionSession.value, identity.value, headers);
      if identity.None? {
        MoreIsHopeless(headers + {req.executionSession.value}, Evidence(req));
        return;
      }
    }
    var raw := if req.original.Some? then req.original else req.payload;
    identity := ReadBody(raw, identity.value,
                         if req.executionSession.Some? then headers + {req.executionSession.value} else headers);
  }
}
