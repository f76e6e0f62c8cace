/** What the model registry does get done: which refreshes start, told in times, and that an accepted
    roster is what turns are served from then on. */
module SnapshotProgress {
  import opened Wrappers
  import opened Models
  import opened Rosters
  import opened Registries
  import opened Snapshots
  import opened SnapshotSafety

  // ---------- an accepted roster is served ----------

  /** This step neither publishes a roster nor changes the source settings. */
  ghost predicate LeavesModels(s: System, l: Label) {
    && (l.EndRefresh? && l.id in s.flights && s.flights[l.id].generation == s.reg.generation ==>
         l.cancelled || l.doc.None? || AcceptedRoster(l.doc.value).None?)
    && (l.ConfigureRegistry? && s.hold.Configuring? ==> s.hold.config.settings == s.reg.settings)
  }

  /** Each step of the run does so. */
  ghost predicate RunLeavesModels(s: System, labels: seq<Label>, w: World) {
    forall j :: 0 <= j < |labels| && From(s, labels[..j], w).Some? ==>
      LeavesModels(From(s, labels[..j], w).value, labels[j])
  }

  /** The models are these, and so are those of every snapshot from number `from` on. */
  predicate Serves(s: System, from: nat, defs: seq<ModelDef>) {
    s.reg.current == defs && forall i :: from <= i < |s.snaps| ==> s.snaps[i].models == defs
  }

  lemma StepServes(s: System, l: Label, w: World, from: nat, defs: seq<ModelDef>)
    requires Serves(s, from, defs) && LeavesModels(s, l) && Step(s, l, w).Some?
    ensures Serves(Step(s, l, w).value, from, defs)
  {
  }

  lemma {:induction false} RunServes(s: System, labels: seq<Label>, w: World, from: nat, defs: seq<ModelDef>)
    requires Serves(s, from, defs) && RunLeavesModels(s, labels, w) && From(s, labels, w).Some?
    ensures Serves(From(s, labels, w).value, from, defs)
  {
    if labels != [] {
      var n := |labels| - 1;
      var before := labels[..n];
      assert forall j :: 0 <= j < n ==> before[..j] == labels[..j];
      RunServes(s, before, w, from, defs);
      StepServes(From(s, before, w).value, labels[n], w, from, defs);
    }
  }

  /** In every run, when a refresh of the current source ends in time with an acceptable file, its
      models are the current ones at once, and every turn takes them until another file is published
      or the source settings change. */
  lemma AcceptedRosterIsServed(labels: seq<Label>, w: World, id: nat, doc: RosterFile, now: int, more: seq<Label>)
    requires After(labels, w).Some?
    requires var s := After(labels, w).value;
             id in s.flights && s.flights[id].generation == s.reg.generation && now >= s.clock
    requires AcceptedRoster(doc).Some?
    ensures var s := After(labels, w).value;
            var ended := Step(s, EndRefresh(id, Some(doc), false, now), w);
            && ended.Some? && ended.value.reg.current == AcceptedRoster(doc).value
            && ended.value.reg.fetched == Some(now) && ended.value.reg.fileTime == s.flights[id].fileTime
            && !ended.value.reg.loading && !ended.value.reg.failed
            && (From(ended.value, more, w).Some? && RunLeavesModels(ended.value, more, w) ==>
                 Serves(From(ended.value, more, w).value, |s.snaps|, AcceptedRoster(doc).value))
  {
    var s := After(labels, w).value;
    var ended := Step(s, EndRefresh(id, Some(doc), false, now), w).value;
    if From(ended, more, w).Some? && RunLeavesModels(ended, more, w) {
      RunServes(ended, more, w, |s.snaps|, AcceptedRoster(doc).value);
    }
  }

  // ---------- when a refresh starts ----------

  /** There may be something new at the source: a file never read with success or with another time,
      a URL never read with success or read an interval ago, six hours where none is given. */
  predicate SourceIsDue(r: Registry, now: int, stat: Option<int>, w: World) {
    var d := w.duration(r.settings.interval);
    var interval := if r.settings.interval != "" && d.Some? then d.value else 6 * 3600 * 1_000_000_000;
    if r.settings.file == "" then r.fetched == None || now - r.fetched.value >= interval
    else stat.Some? && (r.fetched == None || stat.value != r.fileTime)
  }

  /** Refreshing is not switched off by an interval of zero or less. */
  predicate SwitchedOn(s: Settings, w: World) {
    s.interval != "" && w.duration(s.interval).Some? ==> w.duration(s.interval).value > 0
  }

  /** One more download has started now, for the current settings and the file as it was examined. */
  predicate Starts(s: System, r: System, now: int, stat: Option<int>) {
    && r.starts == s.starts + [Start(s.reg.generation, now, s.reg.settings)]
    && r.reg.loading && r.reg.attempted == now
    && exists id :: id in r.flights && id !in s.flights && r.flights[id].generation == s.reg.generation
                    && (s.reg.settings.file != "" ==> stat == Some(r.flights[id].fileTime))
  }

  /** A refresh that is tried starts a download exactly when it is due: refreshing is switched on, no
      download of the current source is under way, five minutes have passed since a failed one began,
      and the source may have something new. Otherwise no download starts and nothing changes, but that
      a file which cannot be examined counts as a failure; the models stay either way. */
  lemma DueRefreshStarts(labels: seq<Label>, w: World, now: int, stat: Option<int>)
    requires After(labels, w).Some? && now >= After(labels, w).value.clock
    ensures var s := After(labels, w).value;
            var r := Step(s, BeginRefresh(now, stat), w);
            var free := SwitchedOn(s.reg.settings, w) && !s.reg.loading
                        && (s.reg.failed ==> now - s.reg.attempted >= 5 * 60 * 1_000_000_000);
            var due := free && SourceIsDue(s.reg, now, stat, w);
            && r.Some? && r.value.reg.current == s.reg.current
            && (due ==> Starts(s, r.value, now, stat))
            && (!due ==>
                 && r.value.starts == s.starts && r.value.flights == s.flights
                 && r.value.reg == if free && s.reg.settings.file != "" && stat.None?
                                   then s.reg.(failed := true, attempted := now) else s.reg)
  {
    EveryRunKeepsInv(labels, w);
    var s := After(labels, w).value;
    var r := Step(s, BeginRefresh(now, stat), w).value;
    if Downloads(s.reg, now, stat, w) { assert s.next in r.flights && s.next !in s.flights; }
  }

  /** The settings of a new source replace everything remembered of the old one: even if that was being
      downloaded, or had just failed, or was fresh, the next refresh asks the new source. Settings
      that do not change the source leave the registry as it is. */
  lemma NewSourceIsAsked(labels: seq<Label>, w: World, now: int, stat: Option<int>)
    requires After(labels, w).Some? && After(labels, w).value.hold.Configuring?
    requires now >= After(labels, w).value.clock
    ensures var s := After(labels, w).value;
            var settings := s.hold.config.settings;
            var r := Step(s, ConfigureRegistry, w);
            && r.Some?
            && (settings == s.reg.settings ==> r.value.reg == s.reg)
            && (settings != s.reg.settings ==>
                 && r.value.reg.settings == settings && r.value.reg.generation == s.reg.generation + 1
                 && (SwitchedOn(settings, w) ==> r.value.reg.current == s.reg.current)
                 && (!SwitchedOn(settings, w) ==> r.value.reg.current == w.fallback)
                 && (SwitchedOn(settings, w) && (settings.file == "" || stat.Some?) ==>
                      var b := Step(r.value, BeginRefresh(now, stat), w);
                      b.Some? && Starts(r.value, b.value, now, stat)))
  {
    EveryRunKeepsInv(labels, w);
    var s := After(labels, w).value;
    var r := Step(s, ConfigureRegistry, w).value;
    StepKeepsLoader(s, ConfigureRegistry, w);
    if Downloads(r.reg, now, stat, w) {
      var b := Step(r, BeginRefresh(now, stat), w).value;
      assert r.next in b.flights && r.next !in r.flights;
    }
  }

  /** While a download of the current source is under way, the last start is its own. */
  ghost predicate LoaderStarted(s: System) {
    s.reg.loading ==>
      s.starts != []
      && var last := s.starts[|s.starts| - 1];
         last.generation == s.reg.generation && last.time == s.reg.attempted
  }

  lemma {:induction false} EveryLoaderStarted(labels: seq<Label>, w: World)
    requires After(labels, w).Some?
    ensures LoaderStarted(After(labels, w).value)
  {
    if labels != [] {
      var before := labels[..|labels| - 1];
      EveryLoaderStarted(before, w);
      StepKeepsLoaderStarted(After(before, w).value, labels[|labels| - 1], w);
    }
  }

  lemma StepKeepsLoaderStarted(s: System, l: Label, w: World)
    requires LoaderStarted(s) && Step(s, l, w).Some?
    ensures LoaderStarted(Step(s, l, w).value)
  {
  }

  /** A download of the current source that fails, is cancelled or brings an unacceptable file leaves
      the models, and is tried again: a refresh five minutes after its start, and none before, starts
      the next one when the source is due. */
  lemma FailedRefreshIsRetried(labels: seq<Label>, w: World, id: nat, doc: Option<RosterFile>, cancelled: bool,
                               ended: int, now: int, stat: Option<int>)
    requires After(labels, w).Some?
    requires var s := After(labels, w).value;
             id in s.flights && s.flights[id].generation == s.reg.generation && s.clock <= ended <= now
    requires cancelled || doc.None? || AcceptedRoster(doc.value).None?
    ensures var s := After(labels, w).value;
            var failed := Step(s, EndRefresh(id, doc, cancelled, ended), w);
            && s.starts != [] && failed.Some? && failed.value.reg.current == s.reg.current
            && var last := s.starts[|s.starts| - 1].time;
               var r := Step(failed.value, BeginRefresh(now, stat), w);
               && r.Some?
               && (now - last >= 5 * 60 * 1_000_000_000 && SourceIsDue(failed.value.reg, now, stat, w)
                   ==> Starts(failed.value, r.value, now, stat))
               && (now - last < 5 * 60 * 1_000_000_000 ==> r.value.starts == s.starts)
  {
    EveryRunKeepsInv(labels, w);
    EveryLoaderStarted(labels, w);
    var s := After(labels, w).value;
    var l := EndRefresh(id, doc, cancelled, ended);
    var failed := Step(s, l, w).value;
    AfterOneMore(labels, l, w);
    DueRefreshStarts(labels + [l], w, now, stat);
    assert SwitchedOn(s.reg.settings, w);
  }

  lemma AfterOneMore(labels: seq<Label>, l: Label, w: World)
    requires After(labels, w).Some?
    ensures After(labels + [l], w) == Step(After(labels, w).value, l, w)
  {
    assert (labels + [l])[..|labels|] == labels;
  }

  // ---------- a turn after a configuration ----------

  lemma StepOn(labels: seq<Label>, s: System, l: Label, r: System, w: World)
    requires After(labels, w) == Some(s) && Step(s, l, w) == Some(r)
    ensures After(labels + [l], w) == Some(r)
  {
    AfterOneMore(labels, l, w);
  }

  /** In every reachable state in which nobody holds the state lock, a configuration can be taken over
      and a turn can then begin. The turn has that very configuration, filters and all, and the models
      of the moment: the ones before, or the fallback when the configuration changes the source and
      switches refreshing off. A refused configuration changes nothing. */
  lemma TurnAfterConfiguration(labels: seq<Label>, w: World, config: Config)
    requires After(labels, w).Some? && After(labels, w).value.hold.Free?
    ensures var s := After(labels, w).value;
            var r := After(labels + [UpdateStore(Some(config))] + [ConfigureRegistry] + [ReadStore] + [ReadModels], w);
            && Step(s, UpdateStore(None), w) == Some(s)
            && r.Some? && r.value.hold.Free? && r.value.store == config && r.value.reg.settings == config.settings
            && |r.value.snaps| == |s.snaps| + 1 && s.snaps <= r.value.snaps
            && var turn := r.value.snaps[|s.snaps|];
               && turn.config == config && turn.source == config.settings && turn.models == r.value.reg.current
               && turn.models == (if config.settings == s.reg.settings || SwitchedOn(config.settings, w)
                                  then s.reg.current else w.fallback)
  {
    var s := After(labels, w).value;
    var s1 := s.(store := config, hold := Configuring(config));
    var s2 := ConfigureStep(s1, config.settings, w);
    var s3 := s2.(hold := Snapping(config));
    var s4 := SnapStep(s3, config);
    StepOn(labels, s, UpdateStore(Some(config)), s1, w);
    StepOn(labels + [UpdateStore(Some(config))], s1, ConfigureRegistry, s2, w);
    StepOn(labels + [UpdateStore(Some(config))] + [ConfigureRegistry], s2, ReadStore, s3, w);
    StepOn(labels + [UpdateStore(Some(config))] + [ConfigureRegistry] + [ReadStore], s3, ReadModels, s4, w);
  }

  /** Every turn that begins takes the stored configuration and the current models of that moment. */
  lemma TurnTakesTheMoment(labels: seq<Label>, w: World)
    requires After(labels, w).Some? && Step(After(labels, w).value, ReadModels, w).Some?
    ensures var s := After(labels, w).value;
            Step(s, ReadModels, w).value.snaps
            == s.snaps + [TurnSnapshot(s.store, s.reg.current, s.store.settings, s.reg.generation)]
  {
    EveryRunKeepsInv(labels, w);
  }
}
