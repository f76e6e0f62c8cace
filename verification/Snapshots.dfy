/** Configuration, refreshes and turn snapshots as interleaved steps (go/plugin.go over go/config.go
    and go/models_remote.go). Configure and snapshot hold the plugin's state lock over two stores;
    a refresh publishes into one of them without that lock. */
module Snapshots {
  import opened Wrappers
  import opened Models
  import opened Rosters
  import opened Registries

  datatype Config = Config(settings: Settings, filter: Filter)

  /** Who holds the state lock, and what it has read or written so far. */
  datatype Hold = Free | Configuring(config: Config) | Snapping(config: Config)

  /** A turn's snapshot. `source` and `generation` record the registry's side at that moment. */
  datatype TurnSnapshot = TurnSnapshot(config: Config, models: seq<ModelDef>, source: Settings, generation: nat)

  /** A download start: when, and for which source. */
  datatype Start = Start(generation: nat, time: int, source: Settings)

  /** `flights` are the refreshes that are downloading, `loader` the one that set `loading`; `snaps`
      and `starts` record what happened. */
  datatype System = System(
    store: Config, reg: Registry, hold: Hold, clock: int,
    flights: map<nat, Ticket>, next: nat, loader: Option<nat>, snaps: seq<TurnSnapshot>, starts: seq<Start>)

  /** One critical section each. UpdateStore carries the decoded and validated configuration, None
      when it is refused. */
  datatype Label =
    | UpdateStore(next: Option<Config>) | ConfigureRegistry
    | ReadStore | ReadModels
    | BeginRefresh(now: int, stat: Option<int>)
    | EndRefresh(id: nat, doc: Option<RosterFile>, cancelled: bool, now: int)

  function Init(w: World): System {
    System(Config(Settings("", "", ""), Filter([], [])), Initial(w), Free, 0, map[], 0, None, [], [])
  }

  function BeginStep(s: System, now: int, stat: Option<int>, w: World): System {
    var s' := s.(reg := Begun(s.reg, now, stat, w), clock := now);
    if Downloads(s.reg, now, stat, w) then
      s'.(flights := s.flights[s.next := NewTicket(s.reg, stat)], next := s.next + 1, loader := Some(s.next),
          starts := s.starts + [Start(s.reg.generation, now, s.reg.settings)])
    else s'
  }

  ghost function EndStep(s: System, id: nat, doc: Option<RosterFile>, cancelled: bool, now: int): System
    requires id in s.flights
  {
    s.(reg := Ended(s.reg, s.flights[id], doc, cancelled, now), clock := now, flights := s.flights - {id},
       loader := if s.loader == Some(id) then None else s.loader)
  }

  function ConfigureStep(s: System, settings: Settings, w: World): System {
    s.(reg := Configured(s.reg, settings, w), hold := Free,
       loader := if settings == s.reg.settings then s.loader else None)
  }

  function SnapStep(s: System, config: Config): System {
    s.(hold := Free, snaps := s.snaps + [TurnSnapshot(config, s.reg.current, s.reg.settings, s.reg.generation)])
  }

  /** None: the step is not possible now. The clock does not go back. */
  ghost function Step(s: System, l: Label, w: World): Option<System> {
    match l
    case UpdateStore(next) =>
      if !s.hold.Free? then None
      else if next.None? then Some(s)
      else Some(s.(store := next.value, hold := Configuring(next.value)))
    case ConfigureRegistry => if s.hold.Configuring? then Some(ConfigureStep(s, s.hold.config.settings, w)) else None
    case ReadStore => if s.hold.Free? then Some(s.(hold := Snapping(s.store))) else None
    case ReadModels => if s.hold.Snapping? then Some(SnapStep(s, s.hold.config)) else None
    case BeginRefresh(now, stat) => if now >= s.clock then Some(BeginStep(s, now, stat, w)) else None
    case EndRefresh(id, doc, cancelled, now) =>
      if id in s.flights && now >= s.clock then Some(EndStep(s, id, doc, cancelled, now)) else None
  }

  /** The state a sequence of steps leads to, None when some step was not possible. */
  ghost function From(s: System, labels: seq<Label>, w: World): Option<System> {
    if labels == [] then Some(s)
    else
      var before := From(s, labels[..|labels| - 1], w);
      if before.None? then None else Step(before.value, labels[|labels| - 1], w)
  }

  ghost function After(labels: seq<Label>, w: World): Option<System> {
    From(Init(w), labels, w)
  }
}
