/** The model list as the host sees it (go/models.go): what is registered can be asked for, within the
    budgets that are advertised; and which accepted rosters lead elsewhere. */
module Catalogue {
  import opened Wrappers
  import opened Text
  import opened Models
  import opened Names
  import opened Routing
  import opened Rosters

  // ---------- registration ----------

  /** A registered model: its id, its thinking levels, and its output limit, zero when unknown. */
  datatype Listing = Listing(id: string, levels: seq<string>, output: int)

  function RegisteredId(d: ModelDef): string {
    NAMESPACE + TrimPrefix(TrimPrefix(d.id, CPA_NAMESPACE), NAMESPACE)
  }

  /** A fallback is not advertised as a limit; a gateway cap goes before the reference limit. */
  function Limit(output: int, fallback: bool, cap: int): int {
    if cap > 0 then cap else if fallback then 0 else output
  }

  predicate IsFallback(d: ModelDef) {
    d.outputSource == "fallback"
  }

  function AdvertisedOutput(d: ModelDef): int {
    Limit(d.output, IsFallback(d), d.gatewayOutput)
  }

  function ListingOf(d: ModelDef): Listing {
    Listing(RegisteredId(d), SupportedEfforts(d), AdvertisedOutput(d))
  }

  /** The registration of the allowed models among some definitions. */
  function Registered(s: Snapshot, cfg: Filter, defs: seq<ModelDef>): seq<Listing>
    requires Indexed(s)
  {
    if defs == [] then []
    else
      var d := defs[|defs| - 1];
      Registered(s, cfg, defs[..|defs| - 1]) + if Allowed(s, d.id, cfg) then [ListingOf(d)] else []
  }

  lemma {:induction false} ListedModel(s: Snapshot, cfg: Filter, defs: seq<ModelDef>, l: Listing) returns (d: ModelDef)
    requires Indexed(s) && l in Registered(s, cfg, defs)
    ensures d in defs && Allowed(s, d.id, cfg) && l == ListingOf(d)
  {
    var before := defs[..|defs| - 1];
    if l in Registered(s, cfg, before) {
      d := ListedModel(s, cfg, before, l);
    } else {
      d := defs[|defs| - 1];
    }
  }

  lemma {:induction false} AllowedModelsAreListed(s: Snapshot, cfg: Filter, defs: seq<ModelDef>, d: ModelDef)
    requires Indexed(s) && d in defs && Allowed(s, d.id, cfg)
    ensures ListingOf(d) in Registered(s, cfg, defs)
  {
    var before := defs[..|defs| - 1];
    if d in before {
      AllowedModelsAreListed(s, cfg, before, d);
    } else {
      assert d == defs[|defs| - 1];
    }
  }

  // ---------- well-formed rosters ----------

  /** Ids differ even in lower case, are not empty and parse to themselves. */
  ghost predicate WellFormed(defs: seq<ModelDef>) {
    && PlainRoster(defs)
    && (forall d :: d in defs ==> d.id != "")
    && (forall i, j :: 0 <= i < j < |defs| ==> Ids(defs)[i] != Ids(defs)[j])
  }

  lemma SoundIdsAreNotEmpty(ms: seq<RemoteModel>, i: nat)
    requires i < |ms| && ReadEntries(ms)[i].sound
    ensures ReadEntries(ms)[i].def.id != ""
  {
  }

  lemma AcceptedIdsAreNotEmpty(doc: RosterFile)
    requires AcceptedRoster(doc).Some?
    ensures forall d :: d in AcceptedRoster(doc).value ==> d.id != ""
  {
    var es := ReadEntries(doc.models);
    forall i | 0 <= i < |es|
      ensures es[i].def.id != ""
    {
      SoundIdsAreNotEmpty(doc.models, i);
    }
  }

  lemma DistinctShortsDistinctIds(defs: seq<ModelDef>)
    requires DistinctShorts(defs)
    ensures forall i, j :: 0 <= i < j < |defs| ==> Ids(defs)[i] != Ids(defs)[j]
  {
    forall i, j | 0 <= i < j < |defs|
      ensures Ids(defs)[i] != Ids(defs)[j]
    {
      if Ids(defs)[i] == Ids(defs)[j] { SharedIdIsSame(defs, j, i); }
    }
  }

  /** An accepted roster of plain ids is well formed. */
  lemma AcceptedPlainIsWellFormed(doc: RosterFile)
    requires AcceptedRoster(doc).Some? && PlainRoster(AcceptedRoster(doc).value)
    ensures WellFormed(AcceptedRoster(doc).value)
  {
    AcceptedIdsAreNotEmpty(doc);
    AcceptedShortsDiffer(doc);
    DistinctShortsDistinctIds(AcceptedRoster(doc).value);
  }

  // ---------- what is registered works ----------

  lemma GatewayLevelsAreWords(level: string)
    requires GatewayEffort(level)
    ensures LowerWord(level)
  {
  }

  lemma GatewayLevelsAreSent(level: string)
    requires GatewayEffort(level)
    ensures !LeftToGateway(level)
  {
  }

  /** The registered id is the plugin namespace before the id. */
  lemma RegisteredIdIs(d: ModelDef)
    requires Plain(d.id)
    ensures RegisteredId(d) == NAMESPACE + d.id
  {
    PlainHasNoNamespace(d.id);
  }

  lemma UniqueIdIsLast(defs: seq<ModelDef>, d: ModelDef)
    requires WellFormed(defs) && d in defs
    ensures var at := LastAt(Ids(defs), Lower(d.id)); at.Some? && defs[at.value] == d
  {
    var i :| 0 <= i < |defs| && defs[i] == d;
    assert Ids(defs)[i] == Lower(d.id);
  }

  lemma UniqueIdIsFound(s: Snapshot, d: ModelDef, name: string)
    requires Indexed(s) && WellFormed(s.defs) && d in s.defs && Key(name) == Lower(d.id)
    ensures Definition(s, name) == Some(d) && Match(s, name) == Some(d.id)
  {
    UniqueIdIsLast(s.defs, d);
  }

  lemma RegisteredNameParses(id: string)
    requires Plain(id)
    ensures ParseModelName(NAMESPACE + id) == Selection(id, None)
  {
    NamespaceItself();
    NamespacedParses(NAMESPACE, id);
  }

  lemma SuffixedNameParses(id: string, level: string)
    requires Plain(id) && LowerWord(level)
    ensures ParseModelName(WithSuffix(NAMESPACE + id, level)) == Selection(id, Some(level))
  {
    NamespaceItself();
    WordsAreVerbatim(level);
    NamespacedSuffixParses(NAMESPACE, id, level);
  }

  lemma SupportedLevelIsKept(s: Snapshot, d: ModelDef, level: string, suffixed: bool)
    requires Indexed(s) && Definition(s, d.id) == Some(d) && level in SupportedEfforts(d)
    ensures EffortOf(s, d.id, level, suffixed) == Level(level)
  {
    GatewayLevelsAreWords(level);
    WordsAreVerbatim(level);
    GatewayLevelsAreSent(level);
  }

  /** Each advertised thinking level, as a suffix of the registered id or in the body, is prepared
      for the registered model and unchanged. */
  lemma AdvertisedLevelsWork(s: Snapshot, cfg: Filter, d: ModelDef, level: string, body: Option<string>)
    requires Indexed(s) && WellFormed(s.defs) && d in s.defs
    requires Allowed(s, d.id, cfg) && level in SupportedEfforts(d)
    ensures PrepareModel(s, cfg, WithSuffix(RegisteredId(d), level), body) == Turn(d.id, Level(level))
    ensures PrepareModel(s, cfg, RegisteredId(d), Some(level)) == Turn(d.id, Level(level))
    ensures RouteModel(s, cfg, WithSuffix(RegisteredId(d), level)) == Some((d.id, Level(level)))
  {
    RegisteredIdIs(d);
    GatewayLevelsAreWords(level);
    RegisteredNameParses(d.id);
    SuffixedNameParses(d.id, level);
    PreparesById(s, cfg, d, RegisteredId(d), level, Some(level), false);
    var suffixed := WithSuffix(RegisteredId(d), level);
    PreparesById(s, cfg, d, suffixed, level, body, true);
    UniqueIdIsFound(s, d, suffixed);
    LevelIsKept(s, d, level, None);
    Routes(s, cfg, suffixed, d.id, Level(level));
  }

  lemma PreparesById(s: Snapshot, cfg: Filter, d: ModelDef, name: string, level: string, body: Option<string>,
                     suffixed: bool)
    requires Indexed(s) && WellFormed(s.defs) && d in s.defs
    requires Allowed(s, d.id, cfg) && level in SupportedEfforts(d)
    requires ParseModelName(name) == Selection(d.id, if suffixed then Some(level) else None)
    requires !suffixed ==> body == Some(level)
    ensures PrepareModel(s, cfg, name, body) == Turn(d.id, Level(level))
  {
    UniqueIdIsFound(s, d, name);
    PlainRosterIsStable(s.defs);
    SecondMatch(s, name);
    LevelIsKept(s, d, level, body);
    Passes(s, cfg, name, body, d.id, Level(level));
  }

  lemma LevelIsKept(s: Snapshot, d: ModelDef, level: string, body: Option<string>)
    requires Indexed(s) && WellFormed(s.defs) && d in s.defs && level in SupportedEfforts(d)
    ensures ReasoningEffort(s, Selection(d.id, Some(level)), body) == Level(level)
    ensures ReasoningEffort(s, Selection(d.id, None), Some(level)) == Level(level)
  {
    DefinedById(s, d);
    SupportedLevelIsKept(s, d, level, true);
    SupportedLevelIsKept(s, d, level, false);
  }

  lemma DefinedById(s: Snapshot, d: ModelDef)
    requires Indexed(s) && WellFormed(s.defs) && d in s.defs
    ensures Definition(s, d.id) == Some(d)
  {
    PlainParses(d.id);
    UniqueIdIsFound(s, d, d.id);
  }

  /** A registered id without anything else routes to its model and is prepared without an effort. */
  lemma BareIdWorks(s: Snapshot, cfg: Filter, d: ModelDef)
    requires Indexed(s) && WellFormed(s.defs) && d in s.defs && Allowed(s, d.id, cfg)
    ensures Match(s, RegisteredId(d)) == Some(d.id) && Definition(s, RegisteredId(d)) == Some(d)
    ensures RouteModel(s, cfg, RegisteredId(d)) == Some((d.id, Omit))
    ensures PrepareModel(s, cfg, RegisteredId(d), None) == Turn(d.id, Omit)
  {
    var name := RegisteredId(d);
    RegisteredIdIs(d);
    RegisteredNameParses(d.id);
    UniqueIdIsFound(s, d, name);
    PlainRosterIsStable(s.defs);
    SecondMatch(s, name);
    Routes(s, cfg, name, d.id, Omit);
    Passes(s, cfg, name, None, d.id, Omit);
  }

  /** Every listing is some allowed model's: its id matches back to that very model, routes and is
      prepared, alone and with each of its levels, as a suffix or in the body. */
  lemma RegistrationIsUsable(s: Snapshot, cfg: Filter, l: Listing, body: Option<string>) returns (d: ModelDef)
    requires Indexed(s) && WellFormed(s.defs) && l in Registered(s, cfg, s.defs)
    ensures d in s.defs && Allowed(s, d.id, cfg) && l == ListingOf(d)
    ensures Match(s, l.id) == Some(d.id) && Definition(s, l.id) == Some(d)
    ensures RouteModel(s, cfg, l.id) == Some((d.id, Omit)) && PrepareModel(s, cfg, l.id, None) == Turn(d.id, Omit)
    ensures forall level :: level in l.levels ==>
              PrepareModel(s, cfg, WithSuffix(l.id, level), body) == Turn(d.id, Level(level))
              && PrepareModel(s, cfg, l.id, Some(level)) == Turn(d.id, Level(level))
  {
    d := ListedModel(s, cfg, s.defs, l);
    BareIdWorks(s, cfg, d);
    forall level | level in l.levels
      ensures PrepareModel(s, cfg, WithSuffix(l.id, level), body) == Turn(d.id, Level(level))
      ensures PrepareModel(s, cfg, l.id, Some(level)) == Turn(d.id, Level(level))
    {
      AdvertisedLevelsWork(s, cfg, d, level, body);
    }
  }

  // ---------- budgets ----------

  const DEFAULT_MAX_TOKENS := 64000

  /** What the user asks for: max_tokens, else max_completion_tokens, if positive. */
  function Asked(maxTokens: Option<int>, maxCompletionTokens: Option<int>): Option<int> {
    if maxTokens.Some? && maxTokens.value > 0 then maxTokens
    else if maxCompletionTokens.Some? && maxCompletionTokens.value > 0 then maxCompletionTokens
    else None
  }

  /** The budget for a known model: what is asked for, else a fallback, else the default within the
      reference limit; and all within the gateway's cap. */
  function Budget(asked: Option<int>, output: int, fallback: bool, cap: int): int {
    var within := if asked.Some? then asked.value
                  else if output <= 0 then DEFAULT_MAX_TOKENS
                  else if fallback then output
                  else Min(DEFAULT_MAX_TOKENS, output);
    if cap > 0 then Min(within, cap) else within
  }

  function Min(a: int, b: int): int {
    if a < b then a else b
  }

  /** maxTokens. */
  function MaxTokens(s: Snapshot, id: string, asked: Option<int>): int
    requires Indexed(s)
  {
    match Definition(s, id)
    case None => if asked.Some? then asked.value else DEFAULT_MAX_TOKENS
    case Some(d) => Budget(asked, d.output, IsFallback(d), d.gatewayOutput)
  }

  /** A budget is positive; without a request it is within a known limit; a request is met but for a
      lower cap; and a cap is the limit and is kept. */
  predicate KeepsLimits(budget: int, asked: Option<int>, limit: int, cap: int) {
    && budget > 0
    && (asked.None? && limit > 0 ==> budget <= limit)
    && (asked.Some? ==> budget == if 0 < cap < asked.value then cap else asked.value)
    && (cap > 0 ==> limit == cap && budget <= limit)
  }

  lemma BudgetRule(asked: Option<int>, output: int, fallback: bool, cap: int)
    requires asked.Some? ==> asked.value > 0
    ensures KeepsLimits(Budget(asked, output, fallback, cap), asked, Limit(output, fallback, cap), cap)
  {
  }

  /** A default budget stays within the limit that is advertised for the model, if one is; a budget
      that is asked for, under either name, is lowered to a gateway cap and by nothing else. */
  lemma BudgetsKeepAdvertisedLimits(s: Snapshot, cfg: Filter, l: Listing, maxTokens: Option<int>,
                                    maxCompletion: Option<int>)
    returns (d: ModelDef)
    requires Indexed(s) && WellFormed(s.defs) && l in Registered(s, cfg, s.defs)
    ensures d in s.defs && Match(s, l.id) == Some(d.id)
    ensures var asked := Asked(maxTokens, maxCompletion);
            KeepsLimits(MaxTokens(s, d.id, asked), asked, l.output, d.gatewayOutput)
  {
    d := ListedIsDefined(s, cfg, l);
    BudgetOf(s, d, Asked(maxTokens, maxCompletion));
  }

  lemma BudgetOf(s: Snapshot, d: ModelDef, asked: Option<int>)
    requires Indexed(s) && Definition(s, d.id) == Some(d) && (asked.Some? ==> asked.value > 0)
    ensures KeepsLimits(MaxTokens(s, d.id, asked), asked, AdvertisedOutput(d), d.gatewayOutput)
  {
    BudgetRule(asked, d.output, IsFallback(d), d.gatewayOutput);
  }

  lemma ListedIsDefined(s: Snapshot, cfg: Filter, l: Listing) returns (d: ModelDef)
    requires Indexed(s) && WellFormed(s.defs) && l in Registered(s, cfg, s.defs)
    ensures d in s.defs && l.output == AdvertisedOutput(d)
    ensures Match(s, l.id) == Some(d.id) && Definition(s, d.id) == Some(d)
  {
    d := ListedModel(s, cfg, s.defs, l);
    BareIdWorks(s, cfg, d);
    DefinedById(s, d);
  }

  // ---------- where routing and preparing part ----------

  /** An id that ends in a slash has an empty short name, so a name of which parsing leaves nothing
      routes to it; but preparing refuses such a name. */
  lemma EmptyNameRoutesButDoesNotPrepare(s: Snapshot, d: ModelDef, name: string, body: Option<string>)
    requires Indexed(s) && s.defs == [d] && d.id != "" && Basename(d.id) == ""
    requires ParseModelName(name) == Selection("", None)
    ensures RouteModel(s, Filter([], []), name) == Some((d.id, Omit))
    ensures PrepareModel(s, Filter([], []), name, body) == MissingModel
  {
    SlashIdHoldsEmpty(d);
    assert Key(name) == "";
    Routes(s, Filter([], []), name, d.id, Omit);
  }

  lemma SlashIdHoldsEmpty(d: ModelDef)
    requires d.id != "" && Basename(d.id) == ""
    ensures Lower("") == "" && LinearScan([d], "") == Some(d.id)
  {
    assert Lower("") == "";
    assert Ids([d]) == [Lower(d.id)] && Shorts([d]) == [""];
    OnlyHolder(Shorts([d]), "");
    assert "" !in Ids([d]);
  }

  lemma OnlyHolder(keys: seq<string>, key: string)
    requires keys == [key]
    ensures OnlyAt(keys, key) == Some(0)
  {
  }

  // ---------- accepted rosters that are not stable ----------

  /** A roster file that says nothing but an id. */
  function Bare(id: string): RemoteModel {
    RemoteModel(id, "", "", 0, 0, "", "", 0, None, [])
  }

  function BareFile(ids: seq<string>): RosterFile {
    RosterFile(SCHEMA_VERSION, seq(|ids|, i requires 0 <= i < |ids| => Bare(ids[i])))
  }

  lemma NoSlashIsPlainId(id: string)
    requires Trimmed(id) && '/' !in id
    ensures PlainId(id) == id
  {
    TrimmedAlready(id);
    NamespacesHaveSlash();
    PrefixHasSlash(id, CPA_NAMESPACE);
    PrefixHasSlash(id, NAMESPACE);
  }

  lemma NamespacesHaveSlash()
    ensures '/' in CPA_NAMESPACE && '/' in NAMESPACE
  {
    assert CPA_NAMESPACE[14] == '/' && NAMESPACE[10] == '/';
  }

  lemma PrefixHasSlash(s: string, prefix: string)
    requires '/' in prefix
    ensures prefix <= s ==> '/' in s
  {
  }

  lemma BareEntry(id: string)
    requires PlainId(id) == id && id != "" && !HasBlank(id)
    ensures var e := ReadEntry(Bare(id)); e.sound && e.def.id == id && e.short == Lower(Basename(id))
  {
  }

  lemma BareEntryAt(ids: seq<string>, i: nat)
    requires i < |ids| && PlainId(ids[i]) == ids[i] && ids[i] != "" && !HasBlank(ids[i])
    ensures var es := ReadEntries(BareFile(ids).models);
            |es| == |ids| && es[i].sound && es[i].def.id == ids[i] && es[i].short == Lower(Basename(ids[i]))
  {
    BareEntry(ids[i]);
  }

  lemma GoodEntriesAreAccepted(es: seq<Entry>)
    requires 1 <= |es| <= MAX_MODELS && Acceptable(es)
    ensures |Definitions(es)| == |es| && forall i :: 0 <= i < |es| ==> Definitions(es)[i].id == es[i].def.id
  {
  }

  lemma OneFileIsAccepted(id: string)
    requires PlainId(id) == id && id != "" && !HasBlank(id)
    ensures var roster := AcceptedRoster(BareFile([id]));
            roster.Some? && |roster.value| == 1 && roster.value[0].id == id
  {
    var es := ReadEntries(BareFile([id]).models);
    BareEntryAt([id], 0);
    OneSoundIsAcceptable(es);
    GoodEntriesAreAccepted(es);
  }

  lemma OneSoundIsAcceptable(es: seq<Entry>)
    requires |es| == 1 && es[0].sound
    ensures Acceptable(es)
  {
  }

  lemma TwoFileIsAccepted(a: string, m: string)
    requires PlainId(a) == a && a != "" && !HasBlank(a) && PlainId(m) == m && m != "" && !HasBlank(m)
    requires Lower(Basename(a)) != Lower(Basename(m))
    ensures var roster := AcceptedRoster(BareFile([a, m]));
            roster.Some? && |roster.value| == 2 && roster.value[0].id == a && roster.value[1].id == m
  {
    var es := ReadEntries(BareFile([a, m]).models);
    BareEntryAt([a, m], 0);
    BareEntryAt([a, m], 1);
    TwoSoundAreAcceptable(es);
    GoodEntriesAreAccepted(es);
  }

  lemma TwoSoundAreAcceptable(es: seq<Entry>)
    requires |es| == 2 && es[0].sound && es[1].sound && es[0].short != es[1].short
    ensures Acceptable(es)
  {
  }

  lemma WordsHaveNoBlank(word: string, value: string)
    requires LowerWord(word) && LowerWord(value)
    ensures !HasBlank(word) && !HasBlank(WithSuffix(word, value))
  {
  }

  /** The file with the ids m(v) and m is accepted, for any words m and v; and with m disabled the name
      m(v)(auto) is then prepared for m. */
  lemma AcceptedSuffixEscapesTheFilter(s: Snapshot, word: string, value: string)
    requires Indexed(s) && LowerWord(word) && LowerWord(value)
    ensures var roster := AcceptedRoster(BareFile([WithSuffix(word, value), word]));
            && roster.Some?
            && (s.defs == roster.value ==>
                  var cfg := Filter([], [word]);
                  && !Allowed(s, word, cfg)
                  && PrepareModel(s, cfg, WithSuffix(WithSuffix(word, value), "auto"), None) == Turn(word, Omit)
                  && !StableRoster(s.defs))
  {
    SuffixedFileIsAccepted(word, value);
    var roster := AcceptedRoster(BareFile([WithSuffix(word, value), word]));
    if s.defs == roster.value {
      var a, m := s.defs[0], s.defs[1];
      assert s.defs == [a, m];
      SuffixedIdEscapesTheFilter(s, a, m, value);
      EscapeIsUnstable(s, a, m, value);
    }
  }

  lemma SuffixedFileIsAccepted(word: string, value: string)
    requires LowerWord(word) && LowerWord(value)
    ensures var id := WithSuffix(word, value);
            var roster := AcceptedRoster(BareFile([id, word]));
            roster.Some? && |roster.value| == 2 && roster.value[0].id == id && roster.value[1].id == word
  {
    var id := WithSuffix(word, value);
    SuffixedWord(word, value);
    WordsAreVerbatim(word);
    WordsHaveNoBlank(word, value);
    NoSlashIsPlainId(id);
    NoSlashIsPlainId(word);
    NoSlashIsBasename(id);
    NoSlashIsBasename(word);
    TwoFileIsAccepted(id, word);
  }

  lemma NoSlashIsBasename(s: string)
    requires '/' !in s
    ensures Basename(s) == s
  {
  }

  lemma EscapeIsUnstable(s: Snapshot, a: ModelDef, m: ModelDef, value: string)
    requires Indexed(s) && s.defs == [a, m]
    requires LowerWord(m.id) && LowerWord(value) && a.id == WithSuffix(m.id, value)
    ensures !StableRoster(s.defs)
  {
    var name := WithSuffix(a.id, "auto");
    TwoModels(s, a, m, value, "auto");
    if StableRoster(s.defs) { SecondMatch(s, name); }
  }

  /** When an id is another id with a suffix in parentheses, the second parse can select another
      model than the one that was filtered, even a disabled one. */
  lemma SuffixedIdEscapesTheFilter(s: Snapshot, a: ModelDef, m: ModelDef, value: string)
    requires Indexed(s) && s.defs == [a, m]
    requires LowerWord(m.id) && LowerWord(value) && a.id == WithSuffix(m.id, value)
    ensures var cfg := Filter([], [m.id]);
            !Allowed(s, m.id, cfg) && PrepareModel(s, cfg, WithSuffix(a.id, "auto"), None) == Turn(m.id, Omit)
  {
    var cfg := Filter([], [m.id]);
    TwoModels(s, a, m, value, "auto");
    DisabledIsNotAllowed(s, cfg, m.id, m.id);
    OnlyOneDisabled(s, a.id, m.id);
    AutoIsOmitted(s, m.id);
    PreparesAs(s, cfg, WithSuffix(a.id, "auto"), a.id, m.id);
  }

  lemma TwoModels(s: Snapshot, a: ModelDef, m: ModelDef, value: string, mode: string)
    requires Indexed(s) && s.defs == [a, m] && LowerWord(mode)
    requires LowerWord(m.id) && LowerWord(value) && a.id == WithSuffix(m.id, value)
    ensures Match(s, m.id) == Some(m.id) && EnvelopeModel(s, WithSuffix(a.id, mode)) == m.id
    ensures Match(s, WithSuffix(a.id, mode)) == Some(a.id)
    ensures ParseModelName(WithSuffix(a.id, mode)) == Selection(a.id, Some(mode))
  {
    TwoNames(m.id, value, mode);
    WordsParse(m.id);
    TwoIds(a, m);
  }

  lemma TwoIds(a: ModelDef, m: ModelDef)
    requires LowerWord(m.id) && |a.id| > |m.id|
    ensures Lower(m.id) == m.id
    ensures LinearScan([a, m], Lower(a.id)) == Some(a.id) && LinearScan([a, m], m.id) == Some(m.id)
  {
    WordsAreVerbatim(m.id);
    assert Lower(m.id) == m.id && |Lower(a.id)| != |m.id|;
    assert Ids([a, m]) == [Lower(a.id), m.id];
    LastOfTwo(Lower(a.id), m.id);
  }

  lemma LastOfTwo(first: string, second: string)
    requires first != second
    ensures LastAt([first, second], first) == Some(0) && LastAt([first, second], second) == Some(1)
  {
    assert [first, second][..1] == [first];
  }

  lemma OnlyOneDisabled(s: Snapshot, id: string, disabled: string)
    requires Indexed(s) && Match(s, disabled) == Some(disabled) && id != disabled
    ensures Allowed(s, id, Filter([], [disabled]))
  {
  }

  lemma ShortSuffixParses(base: string, value: string)
    requires Trimmed(base) && '/' !in base && LowerWord(value)
    ensures ParseModelName(WithSuffix(base, value)) == Selection(base, Some(value))
  {
    WordsAreVerbatim(value);
    SuffixParses(base, value);
    NoSlashNoNamespace(base);
    ParsesTo(WithSuffix(base, value), Selection(base, Some(value)));
  }

  lemma WordsParse(s: string)
    requires LowerWord(s)
    ensures ParseModelName(s) == Selection(s, None)
  {
    WordsAreVerbatim(s);
    TrimmedAlready(s);
    NoSlashNoNamespace(s);
    ParsesTo(s, Selection(s, None));
  }

  lemma SuffixedWord(word: string, value: string)
    requires LowerWord(word) && LowerWord(value)
    ensures Trimmed(WithSuffix(word, value)) && '/' !in WithSuffix(word, value)
  {
    WordsAreVerbatim(word);
    WordsAreVerbatim(value);
    SuffixIsFound(word, value);
    NoSlashJoined(word, value);
  }

  lemma NoSlashJoined(base: string, value: string)
    requires '/' !in base && '/' !in value
    ensures '/' !in WithSuffix(base, value)
  {
  }

  lemma TwoNames(word: string, value: string, mode: string)
    requires LowerWord(word) && LowerWord(value) && LowerWord(mode)
    ensures var id := WithSuffix(word, value);
            && ParseModelName(id) == Selection(word, Some(value))
            && ParseModelName(WithSuffix(id, mode)) == Selection(id, Some(mode))
  {
    WordsAreVerbatim(word);
    SuffixedWord(word, value);
    ShortSuffixParses(word, value);
    ShortSuffixParses(WithSuffix(word, value), mode);
  }

  lemma OtherCaseIsPlainId(p: string, rest: string)
    requires Lower(p) == NAMESPACE && p != NAMESPACE && Plain(rest)
    ensures PlainId(p + rest) == p + rest
  {
    var id := p + rest;
    if rest != "" { assert rest[|rest| - 1] in rest; }
    NamespacedIsTrimmed(p, rest);
    TrimmedAlready(id);
    assert LowerChar(p[1]) == Lower(p)[1] == 'm';
    assert id[1] == p[1] && CPA_NAMESPACE[1] == 'p';
    assert |p| == |NAMESPACE| && id[..|p|] == p;
  }

  /** A roster id may begin with the plugin's namespace in other letters, since the roster is freed of
      it in lower case only. Such a file is accepted; and the name with the namespace twice in front is
      then prepared for a model that is not in the roster. */
  lemma AcceptedNamespaceEscapesTheRoster(s: Snapshot, p: string, rest: string)
    requires Indexed(s) && Lower(p) == NAMESPACE && p != NAMESPACE
    requires Plain(rest) && '/' in rest
    ensures var roster, sent := AcceptedRoster(BareFile([p + rest])), NAMESPACE + rest;
            && roster.Some?
            && (s.defs == roster.value ==>
                  && PrepareModel(s, Filter([], []), WithSuffix(NAMESPACE + sent, "auto"), None) == Turn(sent, Omit)
                  && Match(s, WithSuffix(NAMESPACE + sent, "auto")) == Some(p + rest) != Some(sent)
                  && (forall d :: d in s.defs ==> d.id != sent)
                  && !StableRoster(s.defs))
  {
    NamespacedFileIsAccepted(p, rest);
    var roster := AcceptedRoster(BareFile([p + rest]));
    if s.defs == roster.value {
      var d := s.defs[0];
      assert s.defs == [d];
      LoneNamespaced(d, p, rest);
      LoneIsSent(s, d, NAMESPACE + rest);
    }
  }

  lemma NamespacedFileIsAccepted(p: string, rest: string)
    requires Lower(p) == NAMESPACE && p != NAMESPACE && Plain(rest)
    ensures var roster := AcceptedRoster(BareFile([p + rest]));
            roster.Some? && |roster.value| == 1 && roster.value[0].id == p + rest
  {
    OtherCaseIsPlainId(p, rest);
    PlainHasNoBlank(p, rest);
    OneFileIsAccepted(p + rest);
  }

  /** A base that names the only model, but nothing when parsed again, is sent as it is. */
  lemma LoneIsSent(s: Snapshot, d: ModelDef, base: string)
    requires Indexed(s) && s.defs == [d] && EndsVisibly(base) && d.id != base
    requires LinearScan([d], Lower(base)) == Some(d.id) && LinearScan([d], Key(base)).None?
    ensures var name := WithSuffix(NAMESPACE + base, "auto");
            && PrepareModel(s, Filter([], []), name, None) == Turn(base, Omit) && Match(s, name) == Some(d.id)
            && !StableRoster(s.defs)
  {
    var name := WithSuffix(NAMESPACE + base, "auto");
    assert !Survives(s.defs, base);
    UnstableLosesModel(s, base);
    AutoIsAuto();
    EveryBaseIsLeft(base, "auto");
    assert ParseModelName(name).base == base;
  }

  lemma PlainHasNoBlank(p: string, rest: string)
    requires Lower(p) == NAMESPACE && Plain(rest)
    ensures p + rest != "" && !HasBlank(p + rest)
  {
    forall c | c in p
      ensures !IsSpace(c)
    {
      var i :| 0 <= i < |p| && p[i] == c;
      assert LowerChar(c) == Lower(p)[i] && Lower(p)[i] in NAMESPACE;
      AlikeCharacters(c, LowerChar(c));
    }
    assert forall c :: c in p + rest ==> c in p || c in rest;
  }

  /** The base that shows it: it names the model, and nothing when it is parsed again. */
  lemma LoneNamespaced(d: ModelDef, p: string, rest: string)
    requires d.id == p + rest && Lower(p) == NAMESPACE && p != NAMESPACE && Plain(rest) && '/' in rest
    ensures var base := NAMESPACE + rest;
            && EndsVisibly(base) && d.id != base
            && LinearScan([d], Lower(base)) == Some(d.id) && LinearScan([d], Key(base)).None?
  {
    var base := NAMESPACE + rest;
    VisibleEnd(NAMESPACE, rest);
    NamespaceItself();
    LowerJoins(NAMESPACE, rest);
    LowerJoins(p, rest);
    assert Lower(base) == Lower(d.id);
    NamespacedParses(NAMESPACE, rest);
    LowerKeepsSlash(rest);
    LoneScan(d, Lower(rest));
    DifferentHeads(p, NAMESPACE, rest);
  }

  lemma VisibleEnd(p: string, rest: string)
    requires Plain(rest) && rest != ""
    ensures EndsVisibly(p + rest)
  {
    assert rest[|rest| - 1] in rest && (p + rest)[|p + rest| - 1] == rest[|rest| - 1];
  }

  lemma DifferentHeads(a: string, b: string, rest: string)
    requires |a| == |b| && a != b
    ensures a + rest != b + rest
  {
    assert (a + rest)[..|a|] == a && (b + rest)[..|b|] == b;
  }

  /** In a roster of one, its id in lower case finds it, and no other key with a slash does. */
  lemma LoneScan(d: ModelDef, key: string)
    requires '/' in key
    ensures LinearScan([d], Lower(d.id)) == Some(d.id)
    ensures key != Lower(d.id) ==> LinearScan([d], key).None?
  {
    assert Ids([d]) == [Lower(d.id)];
    OnlyHolder(Ids([d]), Lower(d.id));
  }

  lemma LowerKeepsSlash(s: string)
    requires '/' in s
    ensures '/' in Lower(s)
  {
    var i :| 0 <= i < |s| && s[i] == '/';
    assert Lower(s)[i] == '/';
  }
}
