/** The model registry of go/models_remote.go. A refresh is two steps, because the lock is not held
    during the download. Times are nanoseconds; the clock and the outcome of stat and download are
    inputs. */
module Registries {
  import opened Wrappers
  import opened Models
  import opened Rosters

  /** The source settings: models_url, models_file, models_refresh_interval. */
  datatype Settings = Settings(url: string, file: string, interval: string)

  /** The state under the registry's lock. `fetched` is None for the zero time. */
  datatype Registry = Registry(
    settings: Settings, generation: nat, loading: bool, attempted: int,
    fetched: Option<int>, fileTime: int, failed: bool, current: seq<ModelDef>)

  /** What a refresh remembers while it downloads. */
  datatype Ticket = Ticket(generation: nat, fileTime: int)

  /** The compiled-in roster and the meaning of a duration. */
  datatype World = World(fallback: seq<ModelDef>, duration: string -> Option<int>)

  const DEFAULT_INTERVAL := 21_600_000_000_000
  const MIN_RETRY := 300_000_000_000

  function Initial(w: World): Registry {
    Registry(Settings("", "", ""), 0, false, 0, None, 0, false, w.fallback)
  }

  function Interval(s: Settings, w: World): int {
    var d := w.duration(s.interval);
    if s.interval == "" || d.None? then DEFAULT_INTERVAL else d.value
  }

  predicate RefreshEnabled(s: Settings, w: World) {
    Interval(s, w) > 0
  }

  /** New source settings start a new generation that owes nothing to the old one, except that the
      models stay until a refresh, or fall back at once when the settings disable refreshing. */
  function Configured(r: Registry, settings: Settings, w: World): Registry {
    if settings == r.settings then r
    else Registry(settings, r.generation + 1, false, 0, None, 0, false,
                  if RefreshEnabled(settings, w) then r.current else w.fallback)
  }

  /** Neither disabled, nor loading, nor within the retry interval of a failure. */
  predicate MayRefresh(r: Registry, now: int, w: World) {
    RefreshEnabled(r.settings, w) && !r.loading && !(r.failed && now - r.attempted < MIN_RETRY)
  }

  /** The source has, as far as one can tell, something new. */
  predicate Stale(r: Registry, now: int, stat: Option<int>, w: World) {
    if r.settings.file != "" then stat.Some? && (r.fetched.None? || stat.value != r.fileTime)
    else r.fetched.None? || now - r.fetched.value >= Interval(r.settings, w)
  }

  predicate Downloads(r: Registry, now: int, stat: Option<int>, w: World) {
    MayRefresh(r, now, w) && Stale(r, now, stat, w)
  }

  /** The first half of Refresh. A models file that cannot be examined counts as a failed attempt. */
  function Begun(r: Registry, now: int, stat: Option<int>, w: World): Registry {
    if Downloads(r, now, stat, w) then r.(loading := true, attempted := now)
    else if MayRefresh(r, now, w) && r.settings.file != "" && stat.None? then r.(failed := true, attempted := now)
    else r
  }

  function NewTicket(r: Registry, stat: Option<int>): Ticket {
    Ticket(r.generation, if r.settings.file != "" && stat.Some? then stat.value else 0)
  }

  /** The second half of Refresh: only the current generation's refresh changes anything. */
  ghost function Ended(r: Registry, t: Ticket, doc: Option<RosterFile>, cancelled: bool, now: int): Registry {
    if t.generation != r.generation then r
    else
      var defs := if cancelled || doc.None? then None else AcceptedRoster(doc.value);
      if defs.None? then r.(loading := false, failed := true)
      else r.(loading := false, failed := false, current := defs.value, fetched := Some(now), fileTime := t.fileTime)
  }

  class ModelRegistry {
    var current: Snapshot
    var settings: Settings
    var generation: nat
    var loading: bool
    var attempted: int
    var fetched: Option<int>
    var fileTime: int
    var failed: bool
    const fallback: Snapshot
    const duration: string -> Option<int>

    ghost predicate Valid()
      reads this
    {
      Indexed(current) && Indexed(fallback)
    }

    ghost function State(): Registry
      reads this
    {
      Registry(settings, generation, loading, attempted, fetched, fileTime, failed, current.defs)
    }

    ghost function Env(): World {
      World(fallback.defs, duration)
    }

    constructor (defs: seq<ModelDef>, duration: string -> Option<int>)
      ensures Valid() && Env() == World(defs, duration) && State() == Initial(Env())
    {
      var s := NewModelSnapshot(defs);
      fallback, current, this.duration := s, s, duration;
      settings, generation, loading := Settings("", "", ""), 0, false;
      attempted, fetched, fileTime, failed := 0, None, 0, false;
    }

    /** modelsRefreshInterval. */
    function RefreshInterval(s: Settings): (r: (int, bool))
      ensures r == (Interval(s, Env()), RefreshEnabled(s, Env()))
    {
      if s.interval == "" then (DEFAULT_INTERVAL, true)
      else
        match duration(s.interval)
        case None => (DEFAULT_INTERVAL, true)
        case Some(d) => (d, d > 0)
    }

    method Configure(next: Settings)
      requires Valid()
      modifies this
      ensures Valid() && State() == Configured(old(State()), next, Env())
    {
      if settings.url == next.url && settings.file == next.file && settings.interval == next.interval { return; }
      generation := generation + 1;
      loading := false;
      settings := next;
      attempted, fetched, fileTime := 0, None, 0;
      failed := false;
      var (_, enabled) := RefreshInterval(next);
      if !enabled { current := fallback; }
    }

    /** Refresh up to the download: the ticket of a download that is to start, and whether the models
        file could not be examined. */
    method RefreshStart(now: int, stat: Option<int>) returns (ticket: Option<Ticket>, fault: bool)
      requires Valid()
      modifies this`loading, this`attempted, this`failed
      ensures Valid() && State() == Begun(old(State()), now, stat, Env())
      ensures ticket == if Downloads(old(State()), now, stat, Env()) then Some(NewTicket(old(State()), stat)) else None
      ensures fault == (MayRefresh(old(State()), now, Env()) && settings.file != "" && stat.None?)
    {
      var (interval, enabled) := RefreshInterval(settings);
      if !enabled || loading || (failed && now - attempted < MIN_RETRY) { return None, false; }
      var mt := 0;
      if settings.file != "" {
        if stat.None? {
          attempted, failed := now, true;
          return None, true;
        }
        mt := stat.value;
        if fetched.Some? && mt == fileTime { return None, false; }
      } else if fetched.Some? && now - fetched.value < interval {
        return None, false;
      }
      loading, attempted := true, now;
      return Some(Ticket(generation, mt)), false;
    }

    /** Refresh from the download on; None is a failed download or unreadable JSON. */
    method RefreshEnd(ticket: Ticket, doc: Option<RosterFile>, cancelled: bool, now: int)
      requires Valid()
      modifies this`loading, this`failed, this`current, this`fetched, this`fileTime
      ensures Valid() && State() == Ended(old(State()), ticket, doc, cancelled, now)
      ensures ticket.generation == generation && !cancelled && doc.Some? && AcceptedRoster(doc.value).Some? ==>
                current.defs == AcceptedRoster(doc.value).value && fetched == Some(now) && !failed && !loading
    {
      var defs: Option<seq<ModelDef>> := None;
      if doc.Some? { defs := ParseModelsFile(doc.value); }
      if ticket.generation != generation { return; }
      loading := false;
      failed := cancelled || defs.None?;
      if failed { return; }
      current := NewModelSnapshot(defs.value);
      fetched, fileTime := Some(now), ticket.fileTime;
    }
  }
}
