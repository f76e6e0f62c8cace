/** Routing and preparing by the same name (go/dispatch.go, go/executor.go, go/request.go). */
module Routing {
  import opened Wrappers
  import opened Text
  import opened Models
  import opened Names

  datatype Effort = Omit | Level(level: string) | Unsupported

  datatype Prepared = MissingModel | UnknownModel | ModelDisabled | BadEffort | Turn(model: string, effort: Effort)

  predicate Selects(s: Snapshot, entry: string, id: string)
    requires Indexed(s)
  {
    Match(s, entry) == Some(id)
  }

  predicate Allowed(s: Snapshot, id: string, cfg: Filter)
    requires Indexed(s)
  {
    && (forall x :: x in cfg.disabled ==> !Selects(s, x, id))
    && (cfg.models == [] || exists x :: x in cfg.models && Selects(s, x, id))
  }

  predicate GatewayEffort(level: string) {
    level == "low" || level == "medium" || level == "high" || level == "xhigh" || level == "max"
  }

  function SupportedEfforts(d: ModelDef): (levels: seq<string>)
    ensures forall l :: l in levels <==> l in d.efforts && GatewayEffort(l)
  {
    Supported(d.efforts)
  }

  function Supported(efforts: seq<string>): (levels: seq<string>)
    ensures forall l :: l in levels <==> l in efforts && GatewayEffort(l)
  {
    if efforts == [] then []
    else
      var n := |efforts| - 1;
      Supported(efforts[..n]) + if GatewayEffort(efforts[n]) then [efforts[n]] else []
  }

  /** The modes that leave the choice to the gateway. */
  predicate LeftToGateway(level: string) {
    level == "auto" || level == "default" || level == "-1" || level == "none" || level == "off" || level == "minimal"
  }

  /** A word left to the gateway is omitted; a level of the gateway is kept if the model has it or lists
      none, and omitted otherwise; anything else, and any level of an unknown model, is a fault. */
  function Decide(left: bool, known: bool, definition: Option<ModelDef>, level: string): Effort {
    if left then Omit
    else if !known || definition.None? then Unsupported
    else if definition.value.efforts == [] || level in SupportedEfforts(definition.value) then Level(level)
    else Omit
  }

  /** The effort a request leads to. An empty suffix is malformed; an empty body effort is none. */
  function EffortOf(s: Snapshot, base: string, requested: string, suffixed: bool): Effort
    requires Indexed(s)
  {
    var level := Lower(TrimSpace(requested));
    Decide(LeftToGateway(level) || (level == "" && !suffixed), GatewayEffort(level), Definition(s, base), level)
  }

  /** A suffix takes precedence over the effort in the body. */
  function ReasoningEffort(s: Snapshot, selection: Selection, body: Option<string>): Effort
    requires Indexed(s)
  {
    if selection.suffix.Some? then EffortOf(s, selection.base, selection.suffix.value, true)
    else if body.Some? then EffortOf(s, selection.base, body.value, false)
    else Omit
  }

  /** routeModel: the canonical model and its effort, when the plugin handles the name. */
  function RouteModel(s: Snapshot, cfg: Filter, name: string): Option<(string, Effort)>
    requires Indexed(s)
  {
    var canonical := Match(s, name);
    if canonical.None? || !Allowed(s, canonical.value, cfg) then None
    else
      var effort := ReasoningEffort(s, ParseModelName(name).(base := canonical.value), None);
      if effort.Unsupported? then None else Some((canonical.value, effort))
  }

  /** The model of the envelope: what parsing left of the name is matched, and so parsed, again. */
  function EnvelopeModel(s: Snapshot, name: string): string
    requires Indexed(s)
  {
    var base := ParseModelName(name).base;
    if Match(s, base).Some? then Match(s, base).value else base
  }

  /** The selection of prepareTurn and buildEnvelopeForSession: the name is matched and filtered,
      and then the envelope selects its model from it. */
  function PrepareModel(s: Snapshot, cfg: Filter, name: string, body: Option<string>): Prepared
    requires Indexed(s)
  {
    var selection := ParseModelName(name);
    if selection.base == "" then MissingModel
    else if Match(s, name).None? then UnknownModel
    else if !Allowed(s, Match(s, name).value, cfg) then ModelDisabled
    else
      var model := EnvelopeModel(s, name);
      var effort := ReasoningEffort(s, Selection(model, selection.suffix), body);
      if effort.Unsupported? then BadEffort else Turn(model, effort)
  }

  // ---------- when the second parse keeps the model ----------

  /** What a base names before it is parsed once more is what it names after; or after that it names
      nothing, and is itself the id of what it named. */
  predicate Survives(defs: seq<ModelDef>, base: string) {
    var found, again := LinearScan(defs, Lower(base)), LinearScan(defs, Key(base));
    found.None? || again == found || (again.None? && found == Some(base))
  }

  predicate EndsVisibly(name: string) {
    name != "" && !IsSpace(name[|name| - 1])
  }

  /** Every base that parsing can leave keeps its meaning when it is parsed once more. */
  ghost predicate StableRoster(defs: seq<ModelDef>) {
    forall base :: EndsVisibly(base) ==> Survives(defs, base)
  }

  lemma EnvelopeKeepsModel(s: Snapshot, name: string)
    requires Indexed(s) && Match(s, name).Some?
    ensures Match(s, name) == Some(EnvelopeModel(s, name)) <==> Survives(s.defs, ParseModelName(name).base)
  {
  }

  /** The envelope's model is the one that was matched. */
  lemma SecondMatch(s: Snapshot, name: string)
    requires Indexed(s) && StableRoster(s.defs) && Match(s, name).Some? && ParseModelName(name).base != ""
    ensures Match(s, name) == Some(EnvelopeModel(s, name))
  {
    BasesEndVisibly(name);
    assert EndsVisibly(ParseModelName(name).base);
    EnvelopeKeepsModel(s, name);
  }

  ghost predicate KeepsModel(s: Snapshot, cfg: Filter, name: string, body: Option<string>)
    requires Indexed(s)
  {
    var p := PrepareModel(s, cfg, name, body);
    p.Turn? ==> Match(s, name) == Some(p.model)
  }

  /** The filters decide about the model that is sent, for all names, filters and bodies, if and only
      if the roster is stable. */
  lemma FilteredModelIsSentExactly(s: Snapshot)
    requires Indexed(s)
    ensures StableRoster(s.defs) <==> forall cfg, name, body :: KeepsModel(s, cfg, name, body)
  {
    if StableRoster(s.defs) {
      forall cfg, name, body
        ensures KeepsModel(s, cfg, name, body)
      {
        StableKeepsModel(s, cfg, name, body);
      }
    } else {
      var base :| EndsVisibly(base) && !Survives(s.defs, base);
      UnstableLosesModel(s, base);
    }
  }

  lemma StableKeepsModel(s: Snapshot, cfg: Filter, name: string, body: Option<string>)
    requires Indexed(s) && StableRoster(s.defs)
    ensures KeepsModel(s, cfg, name, body)
  {
    FilterDecides(s, cfg, name, body);
    if PrepareModel(s, cfg, name, body).Turn? { SecondMatch(s, name); }
  }

  /** The name that shows it: the namespace, a base that does not survive, and the suffix (auto). */
  lemma UnstableLosesModel(s: Snapshot, base: string)
    requires Indexed(s) && EndsVisibly(base) && !Survives(s.defs, base)
    ensures var name := WithSuffix(NAMESPACE + base, "auto");
            && Match(s, name).Some? && Match(s, name) != Some(EnvelopeModel(s, name))
            && PrepareModel(s, Filter([], []), name, None) == Turn(EnvelopeModel(s, name), Omit)
            && !KeepsModel(s, Filter([], []), name, None)
  {
    var name := WithSuffix(NAMESPACE + base, "auto");
    AutoIsAuto();
    EveryBaseIsLeft(base, "auto");
    EnvelopeKeepsModel(s, name);
    AutoIsOmitted(s, EnvelopeModel(s, name));
    PreparesAs(s, Filter([], []), name, Match(s, name).value, EnvelopeModel(s, name));
  }

  lemma AutoIsAuto()
    ensures Lower(TrimSpace("auto")) == "auto" && '(' !in "auto"
  {
    WordsAreVerbatim("auto");
  }

  lemma AutoIsOmitted(s: Snapshot, base: string)
    requires Indexed(s)
    ensures ReasoningEffort(s, Selection(base, Some("auto")), None) == Omit
  {
    WordsAreVerbatim("auto");
  }

  lemma PreparesAs(s: Snapshot, cfg: Filter, name: string, filtered: string, model: string)
    requires Indexed(s) && ParseModelName(name).base != ""
    requires Match(s, name) == Some(filtered) && Allowed(s, filtered, cfg)
    requires EnvelopeModel(s, name) == model
    requires ReasoningEffort(s, Selection(model, ParseModelName(name).suffix), None) == Omit
    ensures PrepareModel(s, cfg, name, None) == Turn(model, Omit)
  {
  }

  /** A key that survives, whatever case it is written in. */
  predicate KeySurvives(defs: seq<ModelDef>, key: string) {
    var found, again := LinearScan(defs, key), LinearScan(defs, Key(key));
    found.None? || again == found
    || (again.None? && found == Some(key) && forall c :: c in key ==> !('a' <= c <= 'z'))
  }

  /** Stability as a check of the keys in the two indexes. */
  predicate StableKeys(defs: seq<ModelDef>) {
    forall key :: key in Ids(defs) + Shorts(defs) && EndsVisibly(key) ==> KeySurvives(defs, key)
  }

  lemma LowerTwice(name: string)
    ensures Lower(Lower(name)) == Lower(name)
  {
  }

  lemma KeysAreLower(defs: seq<ModelDef>, key: string)
    requires key in Ids(defs) + Shorts(defs)
    ensures Lower(key) == key
  {
    if key in Ids(defs) {
      var i :| 0 <= i < |defs| && Ids(defs)[i] == key;
      LowerTwice(defs[i].id);
    } else {
      var i :| 0 <= i < |defs| && Shorts(defs)[i] == key;
      LowerTwice(Basename(defs[i].id));
    }
  }

  /** A letter of the key in upper case. */
  function Raised(key: string, i: nat): string
    requires i < |key| && 'a' <= key[i] <= 'z'
  {
    key[i := (key[i] - 32 as char)]
  }

  lemma RaisedIsAlike(key: string, i: nat)
    requires i < |key| && 'a' <= key[i] <= 'z' && Lower(key) == key && EndsVisibly(key)
    ensures Raised(key, i) != key && Lower(Raised(key, i)) == key && EndsVisibly(Raised(key, i))
  {
    var raised := Raised(key, i);
    assert raised[i] != key[i];
    forall j | 0 <= j < |key|
      ensures LowerChar(raised[j]) == key[j]
    {
      assert LowerChar(key[j]) == Lower(key)[j];
    }
    assert Lower(raised) == key;
  }

  lemma StableKeySurvives(defs: seq<ModelDef>, key: string)
    requires StableRoster(defs) && Lower(key) == key && EndsVisibly(key)
    ensures KeySurvives(defs, key)
  {
    assert Survives(defs, key);
    var found, again := LinearScan(defs, key), LinearScan(defs, Key(key));
    if found.Some? && again != found {
      forall i | 0 <= i < |key|
        ensures !('a' <= key[i] <= 'z')
      {
        if 'a' <= key[i] <= 'z' {
          RaisedIsAlike(key, i);
          assert Survives(defs, Raised(key, i));
          KeysFold(Raised(key, i), key);
        }
      }
    }
  }

  lemma CheckedBaseSurvives(defs: seq<ModelDef>, base: string)
    requires EndsVisibly(base) && KeySurvives(defs, Lower(base))
    ensures Survives(defs, base)
  {
    var key := Lower(base);
    LowerTwice(base);
    KeysFold(base, key);
    if forall c :: c in key ==> !('a' <= c <= 'z') {
      forall i | 0 <= i < |base|
        ensures base[i] == key[i]
      {
        assert key[i] == LowerChar(base[i]) && key[i] in key;
      }
      assert base == key;
    }
  }

  /** Whether a roster is stable can be read off its ids and basenames. */
  lemma StableRosterIsCheckable(defs: seq<ModelDef>)
    ensures StableRoster(defs) <==> StableKeys(defs)
  {
    if StableRoster(defs) {
      forall key | key in Ids(defs) + Shorts(defs) && EndsVisibly(key)
        ensures KeySurvives(defs, key)
      {
        KeysAreLower(defs, key);
        StableKeySurvives(defs, key);
      }
    }
    if StableKeys(defs) {
      forall base | EndsVisibly(base)
        ensures Survives(defs, base)
      {
        if LinearScan(defs, Lower(base)).Some? {
          KeyEndsVisibly(base);
          assert Lower(base) in Ids(defs) + Shorts(defs);
          CheckedBaseSurvives(defs, base);
        }
      }
    }
  }

  lemma KeyEndsVisibly(base: string)
    requires EndsVisibly(base)
    ensures EndsVisibly(Lower(base))
  {
    AlikeCharacters(base[|base| - 1], LowerChar(base[|base| - 1]));
  }

  // ---------- plain rosters are stable ----------

  ghost predicate PlainRoster(defs: seq<ModelDef>) {
    forall d :: d in defs ==> Plain(d.id)
  }

  lemma PlainBaseSurvives(defs: seq<ModelDef>, base: string)
    requires PlainRoster(defs)
    ensures Survives(defs, base)
  {
    var key := Lower(base);
    var full, short := LastAt(Ids(defs), key), OnlyAt(Shorts(defs), key);
    if full.Some? {
      PlainFolds(base, defs[full.value].id);
      PlainParses(base);
    } else if '/' !in key && short.Some? {
      BasenameIsPlain(defs[short.value].id);
      PlainFolds(base, Basename(defs[short.value].id));
      PlainParses(base);
    }
  }

  lemma PlainRosterIsStable(defs: seq<ModelDef>)
    requires PlainRoster(defs)
    ensures StableRoster(defs)
  {
    forall base | EndsVisibly(base)
      ensures Survives(defs, base)
    {
      PlainBaseSurvives(defs, base);
    }
  }

  // ---------- routing and preparing agree ----------

  /** A name that routes, unless nothing is left of it, is prepared for the model it was routed and
      filtered by, and a suffix effort is the one it was routed with; without a suffix only the body's
      effort can still fail. */
  lemma RoutedNamesPrepareTheSame(s: Snapshot, cfg: Filter, name: string, body: Option<string>)
    requires Indexed(s) && StableRoster(s.defs) && RouteModel(s, cfg, name).Some?
    ensures var (model, effort) := RouteModel(s, cfg, name).value;
            var selection := ParseModelName(name);
            PrepareModel(s, cfg, name, body) ==
              if selection.base == "" then MissingModel
              else if selection.suffix.Some? then Turn(model, effort)
              else var wanted := ReasoningEffort(s, Selection(model, None), body);
                   if wanted.Unsupported? then BadEffort else Turn(model, wanted)
  {
    if ParseModelName(name).base != "" { SecondMatch(s, name); }
  }

  lemma FilterDecides(s: Snapshot, cfg: Filter, name: string, body: Option<string>)
    requires Indexed(s)
    ensures var p := PrepareModel(s, cfg, name, body);
            p.Turn? ==> p.model == EnvelopeModel(s, name)
                        && Match(s, name).Some? && Allowed(s, Match(s, name).value, cfg)
  {
  }

  /** The model of a prepared turn is the one that was matched: not disabled, and among the listed
      models if any are listed. */
  lemma PreparedModelIsAllowed(s: Snapshot, cfg: Filter, name: string, body: Option<string>)
    requires Indexed(s) && StableRoster(s.defs) && PrepareModel(s, cfg, name, body).Turn?
    ensures var model := PrepareModel(s, cfg, name, body).model;
            && Match(s, name) == Some(model)
            && (forall x :: x in cfg.disabled ==> !Selects(s, x, model))
            && (cfg.models != [] ==> exists x :: x in cfg.models && Selects(s, x, model))
  {
    FilterDecides(s, cfg, name, body);
    SecondMatch(s, name);
  }

  lemma DisabledIsNotAllowed(s: Snapshot, cfg: Filter, entry: string, id: string)
    requires Indexed(s) && entry in cfg.disabled && Match(s, entry) == Some(id)
    ensures !Allowed(s, id, cfg)
  {
    assert Selects(s, entry, id);
  }

  /** No spelling of a disabled entry, with or without suffix or namespace, is routed or prepared. */
  lemma DisabledNeverPasses(s: Snapshot, cfg: Filter, entry: string, name: string, body: Option<string>)
    requires Indexed(s) && entry in cfg.disabled && Key(name) == Key(entry)
    ensures RouteModel(s, cfg, name).None? && !PrepareModel(s, cfg, name, body).Turn?
  {
    FilterDecides(s, cfg, name, body);
    var found := Match(s, name);
    if found.Some? { DisabledIsNotAllowed(s, cfg, entry, found.value); }
  }

  // ---------- efforts ----------

  function Requested(selection: Selection, body: Option<string>): Option<string> {
    if selection.suffix.Some? then selection.suffix else body
  }

  lemma EffortIsKnown(s: Snapshot, base: string, requested: string, suffixed: bool)
    requires Indexed(s) && EffortOf(s, base, requested, suffixed).Level?
    ensures var level := EffortOf(s, base, requested, suffixed).level;
            && level == Lower(TrimSpace(requested)) && GatewayEffort(level)
            && Definition(s, base).Some?
            && (Definition(s, base).value.efforts == [] || level in Definition(s, base).value.efforts)
  {
  }

  /** The effort of a prepared turn is the one requested, by the suffix or else by the body; it is a
      level of the gateway, and one that the model sent has, if that model lists any. */
  lemma PreparedEffortIsKnown(s: Snapshot, cfg: Filter, name: string, body: Option<string>)
    requires Indexed(s) && PrepareModel(s, cfg, name, body).Turn?
    requires PrepareModel(s, cfg, name, body).effort.Level?
    ensures var p, requested := PrepareModel(s, cfg, name, body), Requested(ParseModelName(name), body);
            && requested.Some? && p.effort.level == Lower(TrimSpace(requested.value)) && GatewayEffort(p.effort.level)
            && Definition(s, p.model).Some?
            && (Definition(s, p.model).value.efforts == [] || p.effort.level in Definition(s, p.model).value.efforts)
  {
    var selection := ParseModelName(name);
    var requested := Requested(selection, body);
    if requested.Some? { EffortIsKnown(s, EnvelopeModel(s, name), requested.value, selection.suffix.Some?); }
  }

  lemma EffortFails(s: Snapshot, base: string, requested: string, suffixed: bool)
    requires Indexed(s)
    ensures var level := Lower(TrimSpace(requested));
            EffortOf(s, base, requested, suffixed).Unsupported? <==>
            !LeftToGateway(level) && (level != "" || suffixed) && !(GatewayEffort(level) && Definition(s, base).Some?)
  {
  }

  lemma MatchedIsDefined(s: Snapshot, name: string)
    requires Indexed(s) && PlainRoster(s.defs) && Match(s, name).Some?
    ensures Definition(s, Match(s, name).value).Some?
  {
    var id := Match(s, name).value;
    var key := Key(name);
    var full, short := LastAt(Ids(s.defs), key), OnlyAt(Shorts(s.defs), key);
    var at := if full.Some? then full.value else short.value;
    assert s.defs[at].id == id;
    PlainParses(id);
    assert Ids(s.defs)[at] == Lower(id);
  }

  /** With plain ids a known and allowed model is refused exactly for an effort that is no word the
      gateway or the plugin knows: the model itself plays no part. */
  lemma EffortsFailByWord(s: Snapshot, cfg: Filter, name: string, body: Option<string>)
    requires Indexed(s) && PlainRoster(s.defs)
    requires ParseModelName(name).base != "" && Match(s, name).Some? && Allowed(s, Match(s, name).value, cfg)
    ensures var selection := ParseModelName(name);
            var requested := Requested(selection, body);
            PrepareModel(s, cfg, name, body) == BadEffort <==>
              && requested.Some?
              && var level := Lower(TrimSpace(requested.value));
                 !LeftToGateway(level) && !GatewayEffort(level) && (level != "" || selection.suffix.Some?)
  {
    PlainRosterIsStable(s.defs);
    SecondMatch(s, name);
    MatchedIsDefined(s, name);
    var selection := ParseModelName(name);
    var requested := Requested(selection, body);
    if requested.Some? { EffortFails(s, EnvelopeModel(s, name), requested.value, selection.suffix.Some?); }
  }

  /** A model's id in any case, behind either namespace in any case, with or without a suffix, is one
      and the same model. */
  lemma SpellingsAreOneModel(s: Snapshot, p: string, id: string, like: string, value: string)
    requires Indexed(s) && IsNamespace(p) && Plain(id) && Lower(like) == Lower(id) && '(' !in value
    ensures Match(s, like) == Match(s, id)
    ensures Match(s, p + like) == Match(s, id)
    ensures Match(s, WithSuffix(p + like, value)) == Match(s, id)
  {
    PlainFolds(like, id);
    PlainParses(id);
    PlainParses(like);
    NamespacedParses(p, like);
    NamespacedSuffixParses(p, like, value);
  }

  /** A known and allowed model is prepared with the effort asked for. */
  lemma Passes(s: Snapshot, cfg: Filter, name: string, body: Option<string>, id: string, effort: Effort)
    requires Indexed(s) && ParseModelName(name).base != "" && Match(s, name) == Some(id) == Some(EnvelopeModel(s, name))
    requires Allowed(s, id, cfg) && !effort.Unsupported?
    requires effort == ReasoningEffort(s, Selection(id, ParseModelName(name).suffix), body)
    ensures PrepareModel(s, cfg, name, body) == Turn(id, effort)
  {
  }

  lemma Routes(s: Snapshot, cfg: Filter, name: string, id: string, effort: Effort)
    requires Indexed(s) && Match(s, name) == Some(id) && Allowed(s, id, cfg) && !effort.Unsupported?
    requires effort == ReasoningEffort(s, Selection(id, ParseModelName(name).suffix), None)
    ensures RouteModel(s, cfg, name) == Some((id, effort))
  {
  }
}
