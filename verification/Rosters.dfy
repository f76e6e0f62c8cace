/** The roster checks of parseModelsFile (go/models_remote.go): what a downloaded model list must be
    to become the current snapshot. */
module Rosters {
  import opened Wrappers
  import opened Text
  import opened Models

  datatype RemoteModel = RemoteModel(
    id: string, display: string, description: string, context: int, output: int,
    outputSource: string, contextSource: string, gatewayOutput: int, vision: Option<bool>, efforts: seq<string>)

  datatype RosterFile = RosterFile(schemaVersion: int, models: seq<RemoteModel>)

  const SCHEMA_VERSION := 1
  const MAX_MODELS := 300

  /** What the checks see of an entry: whether it is good by itself, its names without case, and the
      definition it becomes. */
  datatype Entry = Entry(sound: bool, folded: string, short: string, def: ModelDef)

  /** The id without white space around it and without plugin namespaces. */
  function PlainId(raw: string): string {
    TrimPrefix(TrimPrefix(TrimSpace(raw), CPA_NAMESPACE), NAMESPACE)
  }

  predicate HasBlank(id: string) {
    ' ' in id || '\t' in id || '\r' in id || '\n' in id
  }

  /** Budgets are not negative and, where the context is a verified number, stay within it. */
  predicate SoundBudget(m: RemoteModel) {
    && m.context >= 0 && m.output >= 0 && m.gatewayOutput >= 0
    && (m.context > 0 && m.contextSource != "fallback" ==> m.output <= m.context && m.gatewayOutput <= m.context)
  }

  function Define(m: RemoteModel, id: string): ModelDef {
    ModelDef(id, if m.display == "" then id else m.display, m.description, m.context, m.output,
             m.outputSource, m.contextSource, m.gatewayOutput, m.vision, m.efforts)
  }

  function ReadEntry(m: RemoteModel): Entry {
    var id := PlainId(m.id);
    Entry(id != "" && !HasBlank(id) && SoundBudget(m), Lower(id), Lower(Basename(id)), Define(m, id))
  }

  function ReadEntries(ms: seq<RemoteModel>): (es: seq<Entry>)
    ensures |es| == |ms|
  {
    seq(|ms|, i requires 0 <= i < |ms| => ReadEntry(ms[i]))
  }

  function FoldedIds(es: seq<Entry>): set<string> {
    set e | e in es :: e.folded
  }

  function ShortNames(es: seq<Entry>): set<string> {
    set e | e in es :: e.short
  }

  function Definitions(es: seq<Entry>): (defs: seq<ModelDef>)
    ensures |defs| == |es|
  {
    seq(|es|, i requires 0 <= i < |es| => es[i].def)
  }

  /** Good entries no two of which share a short name. */
  ghost predicate Acceptable(es: seq<Entry>) {
    && (forall i :: 0 <= i < |es| ==> es[i].sound)
    && (forall i, j :: 0 <= i < j < |es| ==> es[i].short != es[j].short)
  }

  lemma AcceptOneMore(es: seq<Entry>, n: nat)
    requires n < |es| && Acceptable(es[..n])
    ensures Acceptable(es[..n + 1]) <==> es[n].sound && es[n].short !in ShortNames(es[..n])
    ensures !Acceptable(es[..n + 1]) ==> !Acceptable(es)
    ensures FoldedIds(es[..n + 1]) == FoldedIds(es[..n]) + {es[n].folded}
    ensures ShortNames(es[..n + 1]) == ShortNames(es[..n]) + {es[n].short}
    ensures Definitions(es[..n + 1]) == Definitions(es[..n]) + [es[n].def]
  {
    var before := es[..n];
    assert es[..n + 1] == before + [es[n]];
    if es[n].short in ShortNames(before) {
      var i :| 0 <= i < n && before[i].short == es[n].short;
      assert es[i].short == es[n].short;
    }
  }

  /** Ids that differ only in case have short names that differ only in case. */
  lemma SameIdSameShort(a: string, b: string)
    requires Lower(a) == Lower(b)
    ensures Lower(Basename(a)) == Lower(Basename(b))
  {
    assert |a| == |b|;
    forall i | 0 <= i < |a|
      ensures LowerChar(a[i]) == LowerChar(b[i])
    {
      assert Lower(a)[i] == Lower(b)[i];
    }
    var at := LastIndex(a, '/');
    assert LastIndex(b, '/') == at;
    assert Lower(a[at + 1..]) == Lower(b[at + 1..]);
  }

  lemma SeenIdMeansSeenShort(ms: seq<RemoteModel>, n: nat)
    requires n < |ms| && ReadEntry(ms[n]).folded in FoldedIds(ReadEntries(ms)[..n])
    ensures ReadEntry(ms[n]).short in ShortNames(ReadEntries(ms)[..n])
  {
    var es := ReadEntries(ms);
    var e :| e in es[..n] && e.folded == es[n].folded;
    var i :| 0 <= i < n && es[i] == e;
    SameIdSameShort(PlainId(ms[i].id), PlainId(ms[n].id));
  }

  /** An entry passes when it is good and shares no name with the ones before it. */
  predicate Verdict(m: RemoteModel, seen: set<string>, shorts: set<string>, entry: Option<Entry>) {
    var e := ReadEntry(m);
    entry == if e.sound && e.folded !in seen && e.short !in shorts then Some(e) else None
  }

  /** The checks of one entry against the ones before it; None refuses the file. */
  method CheckModel(m: RemoteModel, seen: set<string>, shorts: set<string>) returns (entry: Option<Entry>)
    ensures Verdict(m, seen, shorts, entry)
  {
    var id := PlainId(m.id);
    var short := Lower(Basename(id));
    if id == "" || HasBlank(id) || Lower(id) in seen || short in shorts { return None; }
    if m.context < 0 || m.output < 0 || m.gatewayOutput < 0 { return None; }
    if m.context > 0 && m.contextSource != "fallback" && (m.output > m.context || m.gatewayOutput > m.context) {
      return None;
    }
    entry := Some(Entry(true, Lower(id), short, Define(m, id)));
  }

  /** The definitions of a file that is accepted as a whole, None when it is refused. */
  ghost function AcceptedRoster(doc: RosterFile): Option<seq<ModelDef>> {
    var es := ReadEntries(doc.models);
    if doc.schemaVersion == SCHEMA_VERSION && 1 <= |es| <= MAX_MODELS && Acceptable(es) then
      Some(Definitions(es))
    else
      None
  }

  /** parseModelsFile after JSON decoding. */
  method ParseModelsFile(doc: RosterFile) returns (defs: Option<seq<ModelDef>>)
    ensures defs == AcceptedRoster(doc)
  {
    if doc.schemaVersion != SCHEMA_VERSION { return None; }
    if |doc.models| == 0 || |doc.models| > MAX_MODELS { return None; }
    defs := CheckModels(doc.models);
  }

  /** The loop over the entries. */
  method CheckModels(ms: seq<RemoteModel>) returns (defs: Option<seq<ModelDef>>)
    ensures defs.Some? <==> Acceptable(ReadEntries(ms))
    ensures defs.Some? ==> defs.value == Definitions(ReadEntries(ms))
  {
    ghost var es := ReadEntries(ms);
    var out: seq<ModelDef>, seen: set<string>, shorts: set<string> := [], {}, {};
    for i := 0 to |ms|
      invariant Checked(es[..i], out, seen, shorts)
    {
      var entry := CheckModel(ms[i], seen, shorts);
      Judge(ms, i, out, seen, shorts, entry);
      if entry.None? { return None; }
      seen, shorts := seen + {entry.value.folded}, shorts + {entry.value.short};
      out := out + [entry.value.def];
    }
    assert es[..|es|] == es;
    defs := Some(out);
  }

  ghost predicate Checked(es: seq<Entry>, out: seq<ModelDef>, seen: set<string>, shorts: set<string>) {
    Acceptable(es) && out == Definitions(es) && seen == FoldedIds(es) && shorts == ShortNames(es)
  }

  lemma Judge(ms: seq<RemoteModel>, i: nat, out: seq<ModelDef>, seen: set<string>, shorts: set<string>,
              entry: Option<Entry>)
    requires i < |ms| && Checked(ReadEntries(ms)[..i], out, seen, shorts)
    requires Verdict(ms[i], seen, shorts, entry)
    ensures entry.None? ==> !Acceptable(ReadEntries(ms))
    ensures entry.Some? ==> Checked(ReadEntries(ms)[..i + 1], out + [entry.value.def],
                                    seen + {entry.value.folded}, shorts + {entry.value.short})
  {
    var es := ReadEntries(ms);
    AcceptOneMore(es, i);
    if es[i].folded in seen { SeenIdMeansSeenShort(ms, i); }
  }

  // ---------- what is accepted ----------

  /** The entry by itself: a name is left of the id, without blanks in it, no budget is negative, and
      none is above a context that is verified. */
  predicate GoodEntry(m: RemoteModel) {
    var id := PlainId(m.id);
    && id != "" && (forall c :: c in id ==> c != ' ' && c != '\t' && c != '\r' && c != '\n')
    && 0 <= m.context && 0 <= m.output && 0 <= m.gatewayOutput
    && (m.contextSource == "fallback" || m.context == 0 || (m.output <= m.context && m.gatewayOutput <= m.context))
  }

  /** The part of an entry's id after its last slash. */
  function LastPart(m: RemoteModel): string {
    Basename(PlainId(m.id))
  }

  lemma GoodEntryIsSound(m: RemoteModel)
    ensures ReadEntry(m).sound <==> GoodEntry(m)
  {
  }

  /** A file is accepted exactly when it has the schema's version, 1 to 300 entries that are good by
      themselves, and no two entries whose last parts differ in case only. */
  lemma AcceptedExactly(doc: RosterFile)
    ensures AcceptedRoster(doc).Some? <==>
              && doc.schemaVersion == 1 && 1 <= |doc.models| <= 300
              && (forall i :: 0 <= i < |doc.models| ==> GoodEntry(doc.models[i]))
              && (forall i, j :: 0 <= i < j < |doc.models| ==>
                    Lower(LastPart(doc.models[i])) != Lower(LastPart(doc.models[j])))
  {
    var es := ReadEntries(doc.models);
    forall i | 0 <= i < |es|
      ensures es[i].sound <==> GoodEntry(doc.models[i])
      ensures es[i].short == Lower(LastPart(doc.models[i]))
    {
      GoodEntryIsSound(doc.models[i]);
    }
  }

  /** The id stands in the text behind at most one of each prefix. */
  predicate Behind(raw: string, first: string, second: string, id: string) {
    raw == id || raw == first + id || raw == second + id || raw == first + second + id
  }

  lemma TrimmedIsBehind(raw: string, first: string, second: string)
    ensures Behind(raw, first, second, TrimPrefix(TrimPrefix(raw, first), second))
  {
    var rest := TrimPrefix(raw, first);
    var id := TrimPrefix(rest, second);
    assert first <= raw ==> raw == first + rest;
    assert second <= rest ==> rest == second + id;
    assert first + (second + id) == first + second + id;
  }

  /** The fields that are taken over as they are. */
  predicate SameFields(d: ModelDef, m: RemoteModel) {
    && d.description == m.description
    && d.context == m.context && d.contextSource == m.contextSource
    && d.output == m.output && d.outputSource == m.outputSource
    && d.gatewayOutput == m.gatewayOutput && d.vision == m.vision && d.efforts == m.efforts
  }

  /** Entry i of an accepted file is definition i, field by field; a display name that is missing is the
      id. The id is the one in the file, trimmed, behind at most one of each namespace. */
  lemma AcceptedFields(doc: RosterFile, i: nat)
    requires AcceptedRoster(doc).Some? && i < |doc.models|
    ensures |AcceptedRoster(doc).value| == |doc.models|
    ensures var m, d := doc.models[i], AcceptedRoster(doc).value[i];
            && Behind(TrimSpace(m.id), CPA_NAMESPACE, NAMESPACE, d.id) && SameFields(d, m)
            && d.display == if m.display != "" then m.display else d.id
  {
    DefinitionAt(doc, i);
    EntryDefines(doc.models[i]);
  }

  lemma DefinitionAt(doc: RosterFile, i: nat)
    requires AcceptedRoster(doc).Some? && i < |doc.models|
    ensures |AcceptedRoster(doc).value| == |doc.models|
    ensures AcceptedRoster(doc).value[i] == ReadEntry(doc.models[i]).def
  {
  }

  lemma EntryDefines(m: RemoteModel)
    ensures var d := ReadEntry(m).def;
            && Behind(TrimSpace(m.id), CPA_NAMESPACE, NAMESPACE, d.id) && SameFields(d, m)
            && d.display == if m.display != "" then m.display else d.id
  {
    TrimmedIsBehind(TrimSpace(m.id), CPA_NAMESPACE, NAMESPACE);
  }

  // ---------- what an accepted roster gives ----------

  ghost predicate DistinctShorts(defs: seq<ModelDef>) {
    forall i, j :: 0 <= i < j < |defs| ==> Shorts(defs)[i] != Shorts(defs)[j]
  }

  lemma AcceptedShortsDiffer(doc: RosterFile)
    requires AcceptedRoster(doc).Some?
    ensures DistinctShorts(AcceptedRoster(doc).value)
  {
    EntriesAreNamed(doc.models);
    NamedEntriesDiffer(ReadEntries(doc.models));
  }

  predicate NamedByDefinition(e: Entry) {
    e.short == Lower(Basename(e.def.id))
  }

  lemma EntriesAreNamed(ms: seq<RemoteModel>)
    ensures forall e :: e in ReadEntries(ms) ==> NamedByDefinition(e)
  {
  }

  lemma NamedEntriesDiffer(es: seq<Entry>)
    requires Acceptable(es) && forall e :: e in es ==> NamedByDefinition(e)
    ensures DistinctShorts(Definitions(es))
  {
    assert forall i :: 0 <= i < |es| ==> NamedByDefinition(es[i]);
  }

  lemma SharedIdIsSame(defs: seq<ModelDef>, i: nat, j: nat)
    requires i < |defs| && j < |defs| && DistinctShorts(defs)
    requires Ids(defs)[j] == Ids(defs)[i] || Ids(defs)[j] == Shorts(defs)[i]
    ensures i == j
  {
    if Ids(defs)[j] == Ids(defs)[i] {
      SameIdSameShort(defs[i].id, defs[j].id);
    } else {
      WholeIdIsShort(defs[j].id, Basename(defs[i].id));
    }
    assert Shorts(defs)[i] == Shorts(defs)[j];
  }

  /** An id that folds to somebody's basename has no slash. */
  lemma WholeIdIsShort(id: string, short: string)
    requires Lower(id) == Lower(short) && '/' !in short
    ensures Basename(id) == id
  {
    forall i | 0 <= i < |id|
      ensures id[i] != '/'
    {
      assert LowerChar(id[i]) == Lower(id)[i] == Lower(short)[i] == LowerChar(short[i]) && short[i] in short;
    }
  }

  /** In an accepted roster, whether a name finds a model depends on the name and that model's id
      alone: it must be the id, or the part after its last slash, up to case. */
  lemma AcceptedModelsMatch(s: Snapshot, i: nat, name: string)
    requires Indexed(s) && DistinctShorts(s.defs) && i < |s.defs|
    ensures var key, id := Key(name), s.defs[i].id;
            Match(s, name) == Some(id) <==> key == Lower(id) || ('/' !in key && key == Lower(Basename(id)))
  {
    var key := Key(name);
    if Match(s, name) == Some(s.defs[i].id) { FoundIsNamed(s.defs, i, key); }
    if key == Ids(s.defs)[i] || ('/' !in key && key == Shorts(s.defs)[i]) { NamedIsFound(s.defs, i, key); }
  }

  lemma FoundIsNamed(defs: seq<ModelDef>, i: nat, key: string)
    requires i < |defs| && LinearScan(defs, key) == Some(defs[i].id)
    ensures key == Ids(defs)[i] || ('/' !in key && key == Shorts(defs)[i])
  {
    var full, short := LastAt(Ids(defs), key), OnlyAt(Shorts(defs), key);
    var at := if full.Some? then full.value else short.value;
    assert defs[at].id == defs[i].id;
  }

  lemma NamedIsFound(defs: seq<ModelDef>, i: nat, key: string)
    requires i < |defs| && DistinctShorts(defs)
    requires key == Ids(defs)[i] || ('/' !in key && key == Shorts(defs)[i])
    ensures LinearScan(defs, key) == Some(defs[i].id)
  {
    var full := LastAt(Ids(defs), key);
    if full.Some? {
      SharedIdIsSame(defs, i, full.value);
    } else {
      assert key != Ids(defs)[i];
      OnlyShort(defs, i);
    }
  }

  lemma OnlyShort(defs: seq<ModelDef>, i: nat)
    requires i < |defs| && DistinctShorts(defs)
    ensures OnlyAt(Shorts(defs), Shorts(defs)[i]) == Some(i)
  {
    var shorts := Shorts(defs);
    var last := LastAt(shorts, shorts[i]).value;
    assert shorts[last] == shorts[i] && last == i;
  }
}
