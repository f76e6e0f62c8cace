/** resolve_metadata of scripts/extract-models.py: which catalogue record describes a model id. An id
    comes with its token record; the catalogue maps case-folded ids to records, and its traversal
    order is arbitrary. */
module Resolving {
  import opened Wrappers

  /** The tokens of an id, as model_identity splits it. */
  datatype Tokens = Tokens(
    namespace: string, roles: seq<string>, versions: seq<string>, sizes: map<string, seq<string>>,
    quantization: seq<string>, dates: seq<string>, deployment: seq<string>)

  datatype Conflict =
    | Manufacturer | Family | Variant | Version | ParameterSize | Modality | Quantization | Dates

  datatype Reason =
    | UnqualifiedNotUnique | LinksDisagree | LinkConflicts(conflict: Conflict) | LinkedRecordMissing
    | ManyStructural | NoStructural | DateNotSpecified

  /** A record, by its key and how it was found, or why there is none. */
  datatype Result =
    | Exact(key: string) | Alias(key: string) | UniqueUnqualified(key: string)
    | ProviderCanonical(key: string) | Structured(key: string)
    | Unresolved(reason: Reason)

  /** An id to resolve: folded and normalised, its last part, and whether it has a namespace. */
  datatype Query = Query(key: string, normalized: string, qualified: bool, tokens: Tokens)

  /** The catalogue: each folded id with its last part and tokens. */
  datatype Record = Record(short: string, tokens: Tokens)

  const VARIANTS: set<string> := {
    "flash", "pro", "max", "plus", "mini", "nano", "ultra", "super", "vl", "vision",
    "omni", "audio", "video", "text", "thinking", "instruct", "code", "preview"}
  const MODALITIES: set<string> := {"vl", "vision", "omni", "audio", "video", "text", "thinking", "instruct"}

  function Roles(t: Tokens): set<string> {
    set r | r in t.roles
  }

  /** Every size the query names is the record's size of that role. */
  predicate SizesAgree(a: Tokens, b: Tokens) {
    forall role :: role in a.sizes ==> role in b.sizes && b.sizes[role] == a.sizes[role]
  }

  /** identity_conflict: why a record cannot be what the query names. */
  function IdentityConflict(a: Tokens, b: Tokens): Option<Conflict> {
    if a.namespace != "" && a.namespace != b.namespace then Some(Manufacturer)
    else if a.roles != [] && b.roles != [] && a.roles[0] != b.roles[0] then Some(Family)
    else if Roles(a) * VARIANTS != {} && Roles(a) * VARIANTS != Roles(b) * VARIANTS then Some(Variant)
    else if a.versions != b.versions then Some(Version)
    else if !SizesAgree(a, b) then Some(ParameterSize)
    else if Roles(a) * MODALITIES != Roles(b) * MODALITIES then Some(Modality)
    else if a.quantization != b.quantization then Some(Quantization)
    else if a.dates != b.dates then Some(Dates)
    else None
  }

  /** The structural filters: same manufacturer, roles, versions, quantisation and named sizes; and the
      same dates if the query names any. */
  predicate Compatible(query: Tokens, record: Tokens) {
    && query.namespace != "" && query.namespace == record.namespace
    && query.roles == record.roles && query.versions == record.versions && query.quantization == record.quantization
    && SizesAgree(query, record)
    && (query.dates != [] ==> query.dates == record.dates)
  }

  /** Compatible, and with the query's dates, or undated like it. */
  predicate Describes(models: map<string, Record>, query: Query, key: string) {
    key in models && Compatible(query.tokens, models[key].tokens) && models[key].tokens.dates == query.tokens.dates
  }

  /** The only record that describes the query. */
  ghost predicate OnlyDescription(models: map<string, Record>, query: Query, key: string) {
    Describes(models, query, key) && forall k :: Describes(models, query, k) ==> k == key
  }

  /** What it means that a record fits an id: it agrees with all that the id says of its manufacturer,
      its family and its sizes, and is the same in versions, modality words, quantisation and dates;
      and if the id has variant words, the record has the same ones. */
  predicate Fits(query: Tokens, record: Tokens) {
    && (query.namespace != "" ==> record.namespace == query.namespace)
    && (query.roles != [] && record.roles != [] ==> record.roles[0] == query.roles[0])
    && (Roles(query) * VARIANTS != {} ==> Roles(query) * VARIANTS == Roles(record) * VARIANTS)
    && Roles(query) * MODALITIES == Roles(record) * MODALITIES
    && query.versions == record.versions && query.quantization == record.quantization && query.dates == record.dates
    && (forall role :: role in query.sizes ==> role in record.sizes && record.sizes[role] == query.sizes[role])
  }

  lemma NoConflictIsFit(query: Tokens, record: Tokens)
    ensures IdentityConflict(query, record).None? <==> Fits(query, record)
  {
  }

  /** The structural filters with equal dates are the conflict test of explicit links, made stricter by
      two things: the id must name its manufacturer, and all its words must be the record's. */
  lemma StructureIsStrictFit(query: Tokens, record: Tokens)
    ensures Compatible(query, record) && record.dates == query.dates <==>
            IdentityConflict(query, record).None? && query.namespace != "" && query.roles == record.roles
  {
    NoConflictIsFit(query, record);
    if query.roles == record.roles { assert Roles(query) == Roles(record); }
  }

  /** The records that pass a filter, whatever the traversal order. */
  method Filter(models: map<string, Record>, keep: (string, Record) -> bool) returns (kept: set<string>)
    ensures kept == set k | k in models && keep(k, models[k])
  {
    var left := models.Keys;
    kept := {};
    while left != {}
      invariant left <= models.Keys && kept == set k | k in models && k !in left && keep(k, models[k])
      decreases left
    {
      var k :| k in left;
      left := left - {k};
      if keep(k, models[k]) { kept := kept + {k}; }
    }
  }

  lemma OnlyElement<T>(s: set<T>, x: T)
    requires x in s && |s| == 1
    ensures s == {x}
  {
    assert |s - {x}| == 0;
  }

  /** The only compatible record has other dates than the id. */
  ghost predicate OnlyMisdated(models: map<string, Record>, query: Query) {
    exists key :: key in models && Compatible(query.tokens, models[key].tokens)
      && models[key].tokens.dates != query.tokens.dates
      && forall k :: k in models && Compatible(query.tokens, models[k].tokens) ==> k == key
  }

  lemma MisdatedIsAlone(models: map<string, Record>, query: Query, compatible: set<string>, dated: set<string>)
    requires compatible == set k | k in models && Compatible(query.tokens, models[k].tokens)
    requires forall k :: k in dated <==> Describes(models, query, k)
    ensures OnlyMisdated(models, query) <==> dated == {} && |compatible| == 1
  {
    if OnlyMisdated(models, query) {
      var key :| key in models && Compatible(query.tokens, models[key].tokens)
        && models[key].tokens.dates != query.tokens.dates
        && forall k :: k in models && Compatible(query.tokens, models[k].tokens) ==> k == key;
      assert compatible == {key};
    }
    if dated == {} && |compatible| == 1 {
      var key :| key in compatible;
      OnlyElement(compatible, key);
      assert !Describes(models, query, key);
      assert forall k :: k in models && Compatible(query.tokens, models[k].tokens) ==> k in compatible;
    }
  }

  lemma OneDescription(models: map<string, Record>, query: Query, compatible: set<string>, dated: set<string>)
    requires compatible == set k | k in models && Compatible(query.tokens, models[k].tokens)
    requires forall k :: k in dated <==> Describes(models, query, k)
    ensures forall key :: OnlyDescription(models, query, key) <==> dated == {key}
    ensures dated <= compatible
    ensures compatible == {} <==> forall k :: k in models ==> !Compatible(query.tokens, models[k].tokens)
  {
    forall key
      ensures OnlyDescription(models, query, key) <==> dated == {key}
    {
      if OnlyDescription(models, query, key) { assert key in dated; }
      if dated == {key} { assert key in dated; }
    }
    if k :| k in models && Compatible(query.tokens, models[k].tokens) { assert k in compatible; }
  }

  /** The answer the two sets of candidates lead to. */
  method Decide(models: map<string, Record>, query: Query, compatible: set<string>, dated: set<string>)
    returns (r: Result)
    requires dated <= compatible && (forall k :: k in compatible ==> k in models)
    requires forall k :: k in compatible ==> (k in dated <==> models[k].tokens.dates == query.tokens.dates)
    ensures forall key :: r == Structured(key) <==> dated == {key}
    ensures r == Unresolved(NoStructural) <==> compatible == {}
    ensures r == Unresolved(DateNotSpecified) <==> dated == {} && |compatible| == 1
    ensures r.Structured? || (r.Unresolved? && r.reason in {NoStructural, DateNotSpecified, ManyStructural})
  {
    var candidates := if dated != {} then dated else compatible;
    if |candidates| > 1 { return Unresolved(ManyStructural); }
    if candidates == {} { return Unresolved(NoStructural); }
    var key :| key in candidates;
    OnlyElement(candidates, key);
    if models[key].tokens.dates != query.tokens.dates { return Unresolved(DateNotSpecified); }
    r := Structured(key);
  }

  /** Candidate discovery: the one record that describes the query, and nothing else. */
  method Structural(models: map<string, Record>, query: Query) returns (r: Result)
    ensures forall key :: r == Structured(key) <==> OnlyDescription(models, query, key)
    ensures r == Unresolved(NoStructural) <==> forall k :: k in models ==> !Compatible(query.tokens, models[k].tokens)
    ensures r == Unresolved(DateNotSpecified) <==> OnlyMisdated(models, query)
    ensures r.Structured? || (r.Unresolved? && r.reason in {NoStructural, DateNotSpecified, ManyStructural})
  {
    var compatible := Filter(models, (k, m: Record) => Compatible(query.tokens, m.tokens));
    var dated := Filter(models, (k, m: Record) =>
      Compatible(query.tokens, m.tokens) && m.tokens.dates == query.tokens.dates);
    MisdatedIsAlone(models, query, compatible, dated);
    OneDescription(models, query, compatible, dated);
    r := Decide(models, query, compatible, dated);
  }

  /** The explicit links of providers: they must agree, fit the id and name a known record. */
  method Linked(models: map<string, Record>, query: Query, links: seq<string>, tokensOf: string -> Tokens)
    returns (r: Result)
    requires links != []
    ensures r.ProviderCanonical? || r.Unresolved?
    ensures forall key :: r == ProviderCanonical(key) <==>
              && key in models && (forall l :: l in links ==> l == key)
              && IdentityConflict(query.tokens, tokensOf(key)).None?
    ensures r == Unresolved(LinksDisagree) <==> exists l :: l in links && l != links[0]
    ensures forall c :: r == Unresolved(LinkConflicts(c)) <==>
              && (forall l :: l in links ==> l == links[0])
              && IdentityConflict(query.tokens, tokensOf(links[0])) == Some(c)
    ensures r.Unresolved? ==> r.reason.LinksDisagree? || r.reason.LinkConflicts? || r.reason.LinkedRecordMissing?
  {
    var target := links[0];
    for i := 0 to |links|
      invariant forall j :: 0 <= j < i ==> links[j] == target
    {
      if links[i] != target {
        assert links[0] in links && links[i] in links;
        return Unresolved(LinksDisagree);
      }
    }
    assert target in links;
    var conflict := IdentityConflict(query.tokens, tokensOf(target));
    if conflict.Some? { return Unresolved(LinkConflicts(conflict.value)); }
    if target !in models { return Unresolved(LinkedRecordMissing); }
    r := ProviderCanonical(target);
  }

  /** An unqualified id that is not a record's own: the last parts decide, unless none is the same. */
  method Unqualified(models: map<string, Record>, query: Query) returns (r: Option<Result>)
    ensures forall key :: r == Some(UniqueUnqualified(key)) <==>
              key in models && models[key].short == query.key
              && forall k :: k in models && models[k].short == query.key ==> k == key
    ensures r.None? <==> forall k :: k in models ==> models[k].short != query.key
    ensures r.None? || r.value.UniqueUnqualified? || r.value == Unresolved(UnqualifiedNotUnique)
  {
    var same := Filter(models, (k, m: Record) => m.short == query.key);
    assert forall k :: k in same <==> k in models && models[k].short == query.key;
    if same == {} { return None; }
    var key :| key in same;
    forall only | only in same && forall k :: k in same ==> k == only
      ensures same == {only}
    {
    }
    if |same| > 1 { return Some(Unresolved(UnqualifiedNotUnique)); }
    OnlyElement(same, key);
    r := Some(UniqueUnqualified(key));
  }

  /** resolve_metadata: each kind of answer, exactly when it is given. It depends on the catalogue as a
      map, not on its order; a structural match is only made when nothing more explicit is known, and
      explicit links that disagree, conflict with the id or name no record end the search. */
  method ResolveMetadata(models: map<string, Record>, query: Query, links: seq<string>, tokensOf: string -> Tokens)
    returns (r: Result)
    ensures r == Exact(query.key) <==> query.key in models
    ensures r == Alias(query.normalized) <==> query.key !in models && query.normalized in models
    ensures forall key :: r == UniqueUnqualified(key) <==>
              && query.key !in models && query.normalized !in models && !query.qualified
              && key in models && models[key].short == query.key
              && forall k :: k in models && models[k].short == query.key ==> k == key
    ensures query.key !in models && query.normalized !in models && links != []
            && (query.qualified || forall k :: k in models ==> models[k].short != query.key) ==>
              (r.ProviderCanonical? || r.Unresolved?)
              && forall key :: r == ProviderCanonical(key) <==>
                   && key in models && (forall l :: l in links ==> l == key)
                   && IdentityConflict(query.tokens, tokensOf(key)).None?
    ensures forall key :: r == Structured(key) <==>
              && query.key !in models && query.normalized !in models && links == []
              && (query.qualified || forall k :: k in models ==> models[k].short != query.key)
              && OnlyDescription(models, query, key)
  {
    if query.key in models { return Exact(query.key); }
    if query.normalized in models { return Alias(query.normalized); }
    if !query.qualified {
      var unqualified := Unqualified(models, query);
      if unqualified.Some? { return unqualified.value; }
    }
    if links != [] {
      r := Linked(models, query, links, tokensOf);
      return;
    }
    r := Structural(models, query);
  }
}
