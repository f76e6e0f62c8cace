/** The model filters told over the two configured lists: who is let through, who is not, and with
    which effort and budget (go/models.go, go/request.go). */
module Filters {
  import opened Wrappers
  import opened Text
  import opened Models
  import opened Names
  import opened Routing
  import opened Catalogue

  // ---------- who is let through ----------

  /** Some entry, in whatever spelling, names the model. */
  predicate Named(s: Snapshot, entries: seq<string>, id: string)
    requires Indexed(s)
  {
    exists x :: x in entries && Match(s, x) == Some(id)
  }

  /** Some disabled entry names the model, or models are listed and none of them names it. */
  predicate Barred(s: Snapshot, cfg: Filter, id: string)
    requires Indexed(s)
  {
    Named(s, cfg.disabled, id) || (cfg.models != [] && !Named(s, cfg.models, id))
  }

  lemma NamedIsSelected(s: Snapshot, entries: seq<string>, id: string)
    requires Indexed(s)
    ensures Named(s, entries, id) <==> exists x :: x in entries && Selects(s, x, id)
  {
    if Named(s, entries, id) {
      var x :| x in entries && Match(s, x) == Some(id);
      assert Selects(s, x, id);
    }
    if x :| x in entries && Selects(s, x, id) {
      assert Match(s, x) == Some(id);
    }
  }

  lemma BarredIsNotAllowed(s: Snapshot, cfg: Filter, id: string)
    requires Indexed(s)
    ensures Allowed(s, id, cfg) <==> !Barred(s, cfg, id)
  {
    NamedIsSelected(s, cfg.disabled, id);
    NamedIsSelected(s, cfg.models, id);
  }

  /** Preparing answers that a model is disabled exactly when the name is known and its model is named by
      a disabled entry, or left out by a list of models. */
  lemma DisabledExactly(s: Snapshot, cfg: Filter, name: string, body: Option<string>)
    requires Indexed(s)
    ensures PrepareModel(s, cfg, name, body) == ModelDisabled <==>
              ParseModelName(name).base != "" && Match(s, name).Some? && Barred(s, cfg, Match(s, name).value)
  {
    NotAllowedIsDisabled(s, cfg, name, body);
    if Match(s, name).Some? { BarredIsNotAllowed(s, cfg, Match(s, name).value); }
  }

  lemma NotAllowedIsDisabled(s: Snapshot, cfg: Filter, name: string, body: Option<string>)
    requires Indexed(s)
    ensures PrepareModel(s, cfg, name, body) == ModelDisabled <==>
              ParseModelName(name).base != "" && Match(s, name).Some? && !Allowed(s, Match(s, name).value, cfg)
  {
  }

  /** A name of which nothing is left is a missing model, one that names no model an unknown one; what is
      prepared under any other name that the lists let through is a turn or fails for its effort. */
  lemma OtherRefusals(s: Snapshot, cfg: Filter, name: string, body: Option<string>)
    requires Indexed(s)
    ensures var p := PrepareModel(s, cfg, name, body);
            && (p == MissingModel <==> ParseModelName(name).base == "")
            && (p == UnknownModel <==> ParseModelName(name).base != "" && Match(s, name).None?)
            && (p.Turn? || p.BadEffort? <==>
                 ParseModelName(name).base != "" && Match(s, name).Some? && !Barred(s, cfg, Match(s, name).value))
  {
    DisabledExactly(s, cfg, name, body);
  }

  /** The word of a suffix that does not fail: left to the gateway, or a level of the gateway for a
      defined model. */
  predicate SuffixWorks(s: Snapshot, id: string, suffix: string)
    requires Indexed(s)
  {
    var level := Lower(TrimSpace(suffix));
    LeftToGateway(level) || (GatewayEffort(level) && Definition(s, id).Some?)
  }

  /** A name is routed exactly when it names a model that the lists let through and its suffix, if it
      has one, does not fail; and then to that model. */
  lemma RoutedExactly(s: Snapshot, cfg: Filter, name: string)
    requires Indexed(s)
    ensures var suffix := ParseModelName(name).suffix;
            RouteModel(s, cfg, name).Some? <==>
              && Match(s, name).Some? && !Barred(s, cfg, Match(s, name).value)
              && (suffix.Some? ==> SuffixWorks(s, Match(s, name).value, suffix.value))
    ensures RouteModel(s, cfg, name).Some? ==> Match(s, name) == Some(RouteModel(s, cfg, name).value.0)
  {
    AllowedIsRouted(s, cfg, name);
    if Match(s, name).Some? { BarredIsNotAllowed(s, cfg, Match(s, name).value); }
  }

  lemma AllowedIsRouted(s: Snapshot, cfg: Filter, name: string)
    requires Indexed(s)
    ensures var suffix := ParseModelName(name).suffix;
            RouteModel(s, cfg, name).Some? <==>
              && Match(s, name).Some? && Allowed(s, Match(s, name).value, cfg)
              && (suffix.Some? ==> SuffixWorks(s, Match(s, name).value, suffix.value))
    ensures RouteModel(s, cfg, name).Some? ==> Match(s, name) == Some(RouteModel(s, cfg, name).value.0)
  {
    var suffix := ParseModelName(name).suffix;
    if Match(s, name).Some? && suffix.Some? { EffortFails(s, Match(s, name).value, suffix.value, true); }
  }

  /** The host is told of exactly the models the lists let through. */
  lemma RegisteredExactly(s: Snapshot, cfg: Filter, l: Listing)
    requires Indexed(s)
    ensures l in Registered(s, cfg, s.defs) <==>
              exists d :: d in s.defs && !Barred(s, cfg, d.id) && l == ListingOf(d)
  {
    if l in Registered(s, cfg, s.defs) {
      var d := ListedModel(s, cfg, s.defs, l);
      BarredIsNotAllowed(s, cfg, d.id);
    }
    if d :| d in s.defs && !Barred(s, cfg, d.id) && l == ListingOf(d) {
      BarredIsNotAllowed(s, cfg, d.id);
      AllowedModelsAreListed(s, cfg, s.defs, d);
    }
  }

  /** A listed model that is not disabled works: with plain, distinct ids every id in `models`, whatever
      else is listed, is registered, routed and prepared. */
  lemma ListedModelWorks(s: Snapshot, cfg: Filter, d: ModelDef, entry: string)
    requires Indexed(s) && WellFormed(s.defs) && d in s.defs
    requires entry in cfg.models && Key(entry) == Lower(d.id)
    requires forall x :: x in cfg.disabled ==> Match(s, x) != Some(d.id)
    ensures ListingOf(d) in Registered(s, cfg, s.defs)
    ensures RouteModel(s, cfg, RegisteredId(d)) == Some((d.id, Omit))
    ensures PrepareModel(s, cfg, RegisteredId(d), None) == Turn(d.id, Omit)
  {
    UniqueIdIsFound(s, d, entry);
    BarredIsNotAllowed(s, cfg, d.id);
    AllowedModelsAreListed(s, cfg, s.defs, d);
    BareIdWorks(s, cfg, d);
  }

  // ---------- which effort ----------

  lemma DecideExactly(known: bool, definition: Option<ModelDef>, level: string)
    requires known == GatewayEffort(level) && definition.Some?
    ensures var e := Decide(false, known, definition, level);
            && (e == Level(level) <==>
                 known && (definition.value.efforts == [] || level in definition.value.efforts))
            && (e == Omit <==> known && definition.value.efforts != [] && level !in definition.value.efforts)
  {
  }

  /** The effort sent with a prepared turn: none without a request or for a word that is left to the
      gateway; the level asked for when the model lists it or lists no levels at all; and none when the
      model lists others. */
  lemma PreparedEffortExactly(s: Snapshot, cfg: Filter, name: string, body: Option<string>)
    requires Indexed(s) && PrepareModel(s, cfg, name, body).Turn?
    ensures var p, requested := PrepareModel(s, cfg, name, body), Requested(ParseModelName(name), body);
            if requested.None? then p.effort == Omit
            else
              var level := Lower(TrimSpace(requested.value));
              if LeftToGateway(level) || level == "" then p.effort == Omit
              else
                && GatewayEffort(level) && Definition(s, p.model).Some?
                && var efforts := Definition(s, p.model).value.efforts;
                   p.effort == if efforts == [] || level in efforts then Level(level) else Omit
  {
    var requested := Requested(ParseModelName(name), body);
    if requested.Some? {
      var model := EnvelopeModel(s, name);
      EffortFails(s, model, requested.value, ParseModelName(name).suffix.Some?);
      SentEffort(s, model, requested.value, ParseModelName(name).suffix.Some?);
    }
  }

  lemma SentEffort(s: Snapshot, base: string, requested: string, suffixed: bool)
    requires Indexed(s) && !EffortOf(s, base, requested, suffixed).Unsupported?
    ensures var level := Lower(TrimSpace(requested));
            if LeftToGateway(level) || level == "" then EffortOf(s, base, requested, suffixed) == Omit
            else
              && GatewayEffort(level) && Definition(s, base).Some?
              && var efforts := Definition(s, base).value.efforts;
                 EffortOf(s, base, requested, suffixed)
                 == if efforts == [] || level in efforts then Level(level) else Omit
  {
  }

  // ---------- which limit and budget ----------

  /** What is advertised as a model's output: a gateway's cap; without one the reference limit, but not
      a fallback. */
  lemma AdvertisedExactly(s: Snapshot, cfg: Filter, d: ModelDef)
    requires Indexed(s) && d in s.defs && !Barred(s, cfg, d.id)
    ensures exists l :: l in Registered(s, cfg, s.defs) && l == ListingOf(d)
    ensures d.gatewayOutput > 0 ==> ListingOf(d).output == d.gatewayOutput
    ensures d.gatewayOutput <= 0 && d.outputSource != "fallback" ==> ListingOf(d).output == d.output
    ensures d.gatewayOutput <= 0 && d.outputSource == "fallback" ==> ListingOf(d).output == 0
  {
    RegisteredExactly(s, cfg, ListingOf(d));
  }

  /** The smaller of a default and the cap of the gateway, if it has one. */
  predicate Within(budget: int, wanted: int, cap: int) {
    if cap > 0 then budget <= cap && budget <= wanted && (budget == cap || budget == wanted) else budget == wanted
  }

  /** The default of a known model, before the cap: 64000 tokens for an unknown output; the fallback
      itself, however large; else the smaller of 64000 and the reference output. */
  predicate IsDefault(wanted: int, output: int, fallback: bool) {
    if output <= 0 then wanted == 64000
    else if fallback then wanted == output
    else wanted <= 64000 && wanted <= output && (wanted == 64000 || wanted == output)
  }

  ghost predicate HasDefault(budget: int, output: int, fallback: bool, cap: int) {
    exists wanted :: IsDefault(wanted, output, fallback) && Within(budget, wanted, cap)
  }

  lemma BudgetByDefault(output: int, fallback: bool, cap: int)
    ensures HasDefault(Budget(None, output, fallback, cap), output, fallback, cap)
  {
    var wanted := Budget(None, output, fallback, 0);
    assert IsDefault(wanted, output, fallback);
  }

  /** The budget of a turn that asks for none: 64000 tokens for an unknown model, else the model's
      default within the gateway's cap. */
  lemma DefaultBudget(s: Snapshot, id: string, d: ModelDef)
    requires Indexed(s)
    ensures Definition(s, id).None? ==> MaxTokens(s, id, None) == 64000
    ensures Definition(s, id) == Some(d) ==>
              HasDefault(MaxTokens(s, id, None), d.output, d.outputSource == "fallback", d.gatewayOutput)
  {
    if Definition(s, id) == Some(d) {
      assert MaxTokens(s, id, None) == Budget(None, d.output, IsFallback(d), d.gatewayOutput);
      BudgetByDefault(d.output, IsFallback(d), d.gatewayOutput);
    }
  }

  /** A positive max_tokens is the budget, else a positive max_completion_tokens, lowered to a cap of the
      gateway and by nothing else; a request for zero or less counts as none. */
  lemma RequestedBudget(s: Snapshot, id: string, maxTokens: Option<int>, maxCompletion: Option<int>, n: int)
    requires Indexed(s)
    requires if maxTokens.Some? && maxTokens.value > 0 then n == maxTokens.value
             else if maxCompletion.Some? && maxCompletion.value > 0 then n == maxCompletion.value
             else n == 0
    ensures var budget := MaxTokens(s, id, Asked(maxTokens, maxCompletion));
            var known := Definition(s, id);
            && (n == 0 ==> budget == MaxTokens(s, id, None))
            && (n > 0 && known.None? ==> budget == n)
            && (n > 0 && known.Some? ==> Within(budget, n, known.value.gatewayOutput))
  {
  }
}
