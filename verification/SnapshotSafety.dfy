/** What every interleaving of Snapshots keeps. */
module SnapshotSafety {
  import opened Wrappers
  import opened Models
  import opened Rosters
  import opened Registries
  import opened Snapshots

  /** The fallback, or a downloaded roster that was accepted. */
  ghost predicate Published(defs: seq<ModelDef>, w: World) {
    defs == w.fallback || exists doc :: AcceptedRoster(doc) == Some(defs)
  }

  /** One configuration on both sides; fallback models if it disables refreshing. */
  ghost predicate Coherent(t: TurnSnapshot, w: World) {
    && t.source == t.config.settings
    && (!RefreshEnabled(t.source, w) ==> t.models == w.fallback)
    && Published(t.models, w)
  }

  /** The two stores agree, but for the moment inside Configure. */
  ghost predicate StoresAgree(s: System, w: World) {
    && (!s.hold.Free? ==> s.store == s.hold.config)
    && (!s.hold.Configuring? ==> s.store.settings == s.reg.settings)
    && (!RefreshEnabled(s.reg.settings, w) ==> s.reg.current == w.fallback)
    && Published(s.reg.current, w)
  }

  /** `loading` belongs to one flight, the only one of the current generation. */
  ghost predicate OneLoader(s: System, w: World) {
    && s.reg.loading == s.loader.Some?
    && (s.loader.Some? ==> s.loader.value in s.flights && RefreshEnabled(s.reg.settings, w))
    && (forall id :: id in s.flights ==> id < s.next && s.flights[id].generation <= s.reg.generation)
    && (forall id :: id in s.flights ==> (s.flights[id].generation == s.reg.generation <==> s.loader == Some(id)))
  }

  ghost predicate SnapsCoherent(s: System, w: World) {
    && (forall i :: 0 <= i < |s.snaps| ==> Coherent(s.snaps[i], w) && s.snaps[i].generation <= s.reg.generation)
    && (forall i, j :: 0 <= i < j < |s.snaps| ==> s.snaps[i].generation <= s.snaps[j].generation)
  }

  ghost predicate Inv(s: System, w: World) {
    StoresAgree(s, w) && OneLoader(s, w) && SnapsCoherent(s, w)
  }

  lemma EndPublishes(r: Registry, t: Ticket, doc: Option<RosterFile>, cancelled: bool, now: int, w: World)
    requires Published(r.current, w)
    ensures Published(Ended(r, t, doc, cancelled, now).current, w)
  {
    if doc.Some? && AcceptedRoster(doc.value).Some? { assert Published(AcceptedRoster(doc.value).value, w); }
  }

  lemma StepKeepsStores(s: System, l: Label, w: World)
    requires StoresAgree(s, w) && OneLoader(s, w) && Step(s, l, w).Some?
    ensures StoresAgree(Step(s, l, w).value, w)
  {
    if l.EndRefresh? { EndPublishes(s.reg, s.flights[l.id], l.doc, l.cancelled, l.now, w); }
  }

  lemma StepKeepsLoader(s: System, l: Label, w: World)
    requires OneLoader(s, w) && Step(s, l, w).Some?
    ensures OneLoader(Step(s, l, w).value, w)
  {
  }

  lemma StepKeepsSnaps(s: System, l: Label, w: World)
    requires Inv(s, w) && Step(s, l, w).Some?
    ensures SnapsCoherent(Step(s, l, w).value, w)
  {
  }

  lemma {:induction false} EveryRunKeepsInv(labels: seq<Label>, w: World)
    requires After(labels, w).Some?
    ensures Inv(After(labels, w).value, w)
  {
    if labels != [] {
      var before, l := labels[..|labels| - 1], labels[|labels| - 1];
      EveryRunKeepsInv(before, w);
      var s := After(before, w).value;
      StepKeepsStores(s, l, w);
      StepKeepsLoader(s, l, w);
      StepKeepsSnaps(s, l, w);
    }
  }

  /** Every turn sees one configuration: the registry's source settings are those of the snapshot's
      configuration, and disabled refreshing means the fallback models. */
  lemma EveryTurnIsCoherent(labels: seq<Label>, w: World, i: nat)
    requires After(labels, w).Some? && i < |After(labels, w).value.snaps|
    ensures Coherent(After(labels, w).value.snaps[i], w)
  {
    EveryRunKeepsInv(labels, w);
  }

  /** `loading` holds exactly when some refresh of the current generation is downloading, and then
      there is only one. */
  lemma LoadingIsOneCurrentRefresh(labels: seq<Label>, w: World)
    requires After(labels, w).Some?
    ensures var s := After(labels, w).value;
            && (s.reg.loading <==> exists id :: id in s.flights && s.flights[id].generation == s.reg.generation)
            && forall a, b :: (a in s.flights && b in s.flights && s.flights[a].generation == s.reg.generation
                               && s.flights[b].generation == s.reg.generation) ==> a == b
  {
    EveryRunKeepsInv(labels, w);
    var s := After(labels, w).value;
    if s.reg.loading { assert s.loader.value in s.flights; }
  }

  // ---------- stale refreshes ----------

  /** How a later state relates to an earlier one. */
  ghost predicate Progress(s: System, s': System) {
    && s.reg.generation <= s'.reg.generation && s.next <= s'.next
    && (s.reg.generation == s'.reg.generation ==> s.reg.settings == s'.reg.settings)
    && (forall id :: id in s'.flights && id < s.next ==> id in s.flights && s'.flights[id] == s.flights[id])
    && s.snaps <= s'.snaps && s.starts <= s'.starts
  }

  lemma {:induction false} RunProgresses(s: System, labels: seq<Label>, w: World)
    requires From(s, labels, w).Some?
    ensures Progress(s, From(s, labels, w).value)
  {
    if labels != [] { RunProgresses(s, labels[..|labels| - 1], w); }
  }

  /** A refresh that was downloading when the source settings changed changes nothing of the registry
      when it ends, however often they are changed and even if they are changed back. */
  lemma StaleRefreshChangesNothing(labels: seq<Label>, change: seq<Label>, later: seq<Label>, w: World, id: nat,
                                   doc: Option<RosterFile>, cancelled: bool, now: int)
    requires After(labels, w).Some? && id in After(labels, w).value.flights
    requires From(After(labels, w).value, change, w).Some?
    requires var s, mid := After(labels, w).value, From(After(labels, w).value, change, w).value;
             mid.reg.settings != s.reg.settings && From(mid, later, w).Some?
    requires var end := From(From(After(labels, w).value, change, w).value, later, w).value;
             id in end.flights && now >= end.clock
    ensures var end := From(From(After(labels, w).value, change, w).value, later, w).value;
            Step(end, EndRefresh(id, doc, cancelled, now), w).value.reg == end.reg
  {
    var s := After(labels, w).value;
    var mid := From(s, change, w).value;
    EveryRunKeepsInv(labels, w);
    RunProgresses(s, change, w);
    RunProgresses(mid, later, w);
  }

  // ---------- what changes the models ----------

  /** The current models change only when a refresh of the current generation ends with an accepted
      roster, which they then are, or when new settings disable refreshing, to the fallback. In
      particular every failure leaves the last good models. */
  lemma ModelsChangeOnlyForGood(s: System, l: Label, w: World)
    requires Step(s, l, w).Some? && Step(s, l, w).value.reg.current != s.reg.current
    ensures var r := Step(s, l, w).value.reg;
            || (l.EndRefresh? && s.flights[l.id].generation == s.reg.generation && !l.cancelled
                && l.doc.Some? && AcceptedRoster(l.doc.value) == Some(r.current))
            || (l.ConfigureRegistry? && r.generation == s.reg.generation + 1
                && !RefreshEnabled(r.settings, w) && r.current == w.fallback)
  {
  }

  /** The settings name a models file that was read with success at `time`; no refresh of this
      generation is under way, and both stores hold the settings. */
  ghost predicate FileRead(s: System, settings: Settings, time: int) {
    && settings.file != "" && s.reg.settings == settings && s.store.settings == settings
    && (s.hold.Configuring? ==> s.hold.config.settings == settings)
    && s.reg.fetched.Some? && s.reg.fileTime == time && !s.reg.loading
    && forall id :: id in s.flights ==> s.flights[id].generation < s.reg.generation
  }

  /** The settings stay, and where the file can be examined it is unchanged. */
  predicate LeavesFile(l: Label, settings: Settings, time: int) {
    && (l.UpdateStore? && l.next.Some? ==> l.next.value.settings == settings)
    && (l.BeginRefresh? && l.stat.Some? ==> l.stat.value == time)
  }

  lemma FileStepStartsNothing(s: System, l: Label, w: World, settings: Settings, time: int)
    requires FileRead(s, settings, time) && LeavesFile(l, settings, time) && Step(s, l, w).Some?
    ensures var s' := Step(s, l, w).value;
            FileRead(s', settings, time) && s'.starts == s.starts && s'.reg.current == s.reg.current
  {
  }

  lemma {:induction false} FileRunStartsNothing(s: System, labels: seq<Label>, w: World, settings: Settings, time: int)
    requires FileRead(s, settings, time) && forall l :: l in labels ==> LeavesFile(l, settings, time)
    requires From(s, labels, w).Some?
    ensures var s' := From(s, labels, w).value;
            FileRead(s', settings, time) && s'.starts == s.starts && s'.reg.current == s.reg.current
  {
    if labels != [] {
      var before, l := labels[..|labels| - 1], labels[|labels| - 1];
      assert l in labels && forall k :: k in before ==> k in labels;
      FileRunStartsNothing(s, before, w, settings, time);
      FileStepStartsNothing(From(s, before, w).value, l, w, settings, time);
    }
  }

  /** This step publishes the contents of a models file. */
  ghost predicate PublishesFile(s: System, l: Label) {
    && l.EndRefresh? && l.id in s.flights && s.flights[l.id].generation == s.reg.generation
    && !l.cancelled && l.doc.Some? && AcceptedRoster(l.doc.value).Some?
    && s.reg.settings.file != "" && s.store.settings == s.reg.settings
    && (s.hold.Configuring? ==> s.hold.config.settings == s.reg.settings)
  }

  /** In every run, once a models file has been published, no download starts and the models stay as
      long as the settings and the file's time do: whatever refreshes are tried, whatever stale ones
      end, whatever configurations with the same source and snapshots come between. */
  lemma UnchangedFileIsNotReadAgain(labels: seq<Label>, l: Label, more: seq<Label>, w: World)
    requires After(labels, w).Some? && PublishesFile(After(labels, w).value, l)
    requires Step(After(labels, w).value, l, w).Some?
    requires var s := After(labels, w).value;
             forall k :: k in more ==> LeavesFile(k, s.reg.settings, s.flights[l.id].fileTime)
    requires From(Step(After(labels, w).value, l, w).value, more, w).Some?
    ensures var read := Step(After(labels, w).value, l, w).value;
            var later := From(read, more, w).value;
            later.starts == read.starts && later.reg.current == read.reg.current && !later.reg.loading
  {
    EveryRunKeepsInv(labels, w);
    var s := After(labels, w).value;
    FileRunStartsNothing(Step(s, l, w).value, more, w, s.reg.settings, s.flights[l.id].fileTime);
  }

  // ---------- how often a source is asked ----------

  /** The least distance of two downloads from a URL source. */
  function Gap(source: Settings, w: World): int {
    if Interval(source, w) < MIN_RETRY then Interval(source, w) else MIN_RETRY
  }

  /** Two successive starts: in order, and apart if they ask the same URL source. */
  ghost predicate Apart(a: Start, b: Start, w: World) {
    && a.generation <= b.generation && a.time <= b.time
    && (a.generation == b.generation ==> a.source == b.source)
    && (a.generation == b.generation && a.source.file == "" ==> b.time - a.time >= Gap(a.source, w))
  }

  ghost predicate Spaced(starts: seq<Start>, w: World) {
    && (forall i :: 0 <= i < |starts| ==> RefreshEnabled(starts[i].source, w))
    && (forall i :: 0 < i < |starts| ==> Apart(starts[i - 1], starts[i], w))
  }

  /** What the registry remembers of the last start of its generation. */
  ghost predicate Remembered(s: System) {
    s.starts == [] ||
    var last := s.starts[|s.starts| - 1];
    && last.time <= s.clock && last.generation <= s.reg.generation
    && (last.generation == s.reg.generation ==> last.source == s.reg.settings)
    && (last.generation == s.reg.generation && last.source.file == "" ==>
          && s.reg.attempted == last.time
          && (s.reg.loading || s.reg.failed || (s.reg.fetched.Some? && s.reg.fetched.value >= last.time)))
  }

  lemma StepKeepsSpacing(s: System, l: Label, w: World)
    requires Spaced(s.starts, w) && Remembered(s) && Step(s, l, w).Some?
    ensures Spaced(Step(s, l, w).value.starts, w) && Remembered(Step(s, l, w).value)
  {
  }

  lemma {:induction false} EveryRunIsSpaced(labels: seq<Label>, w: World)
    requires After(labels, w).Some?
    ensures Spaced(After(labels, w).value.starts, w) && Remembered(After(labels, w).value)
  {
    if labels != [] {
      var before := labels[..|labels| - 1];
      EveryRunIsSpaced(before, w);
      StepKeepsSpacing(After(before, w).value, labels[|labels| - 1], w);
    }
  }

  /** Starts i to j of one generation take at least j - i gaps. */
  lemma {:induction false} GapsAddUp(starts: seq<Start>, i: nat, j: nat, w: World)
    requires Spaced(starts, w) && i <= j < |starts|
    ensures starts[i].generation <= starts[j].generation
    ensures starts[i].generation == starts[j].generation ==> starts[j].source == starts[i].source
    ensures starts[i].generation == starts[j].generation && starts[i].source.file == "" ==>
            starts[j].time - starts[i].time >= (j - i) * Gap(starts[i].source, w)
    decreases j
  {
    if i < j {
      GapsAddUp(starts, i, j - 1, w);
      assert Apart(starts[j - 1], starts[j], w);
      assert (j - i) * Gap(starts[i].source, w) == (j - 1 - i) * Gap(starts[i].source, w) + Gap(starts[i].source, w);
    }
  }

  /** With a URL source, one generation starts at most T / min(interval, 5 minutes) + 1 downloads in
      any stretch of length T. */
  lemma DownloadsAreBounded(labels: seq<Label>, w: World, i: nat, j: nat, span: nat)
    requires After(labels, w).Some? && i <= j < |After(labels, w).value.starts|
    requires var starts := After(labels, w).value.starts;
             && starts[i].generation == starts[j].generation && starts[i].source.file == ""
             && starts[j].time - starts[i].time <= span
    ensures var gap := Gap(After(labels, w).value.starts[i].source, w);
            gap > 0 && j - i + 1 <= span / gap + 1
  {
    var starts := After(labels, w).value.starts;
    EveryRunIsSpaced(labels, w);
    GapsAddUp(starts, i, j, w);
    AtMost(j - i, Gap(starts[i].source, w), span);
  }

  lemma AtMost(n: nat, gap: int, span: nat)
    requires gap > 0 && n * gap <= span
    ensures n <= span / gap
  {
    var q := span / gap;
    assert span == q * gap + span % gap;
    if q < n { TimesKeepsOrder(q + 1, n, gap); }
  }

  lemma TimesKeepsOrder(a: nat, b: nat, g: nat)
    requires a <= b
    ensures a * g <= b * g
  {
    assert (b - a) * g == b * g - a * g;
  }
}
