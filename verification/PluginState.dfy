/** Configure, snapshot and refresh of go/plugin.go and go/models_remote.go as methods over the two
    stores. Configure and TakeSnapshot hold the state lock; the two halves of a refresh do not, so they
    may come at any time between the others, with any number of downloads outstanding. */
module PluginState {
  import opened Wrappers
  import opened Configuration
  import opened Models
  import opened Rosters
  import opened Registries
  import opened Snapshots
  import opened SnapshotSafety

  /** The part of a configuration that turns and model look-ups see. */
  function AsConfig(c: PluginConfig): Config {
    Config(Settings(ScalarOf(c, ModelsUrl), ScalarOf(c, ModelsFile), ScalarOf(c, RefreshInterval)),
           Filter(ListOf(c, ModelList), ListOf(c, DisabledList)))
  }

  class Plugin {
    const config: ConfigStore
    const models: ModelRegistry
    ghost var downloads: set<Ticket>   // refreshes that have begun and not ended

    /** Both stores have the same source settings, a disabled source means the fallback, and no
        download of the current generation is for a disabled source. */
    ghost predicate Valid()
      reads this, config, models
    {
      && models.Valid()
      && AsConfig(config.value).settings == models.settings
      && (!RefreshEnabled(models.settings, models.Env()) ==> models.State().current == models.Env().fallback)
      && Published(models.State().current, models.Env())
      && (forall t :: t in downloads ==> t.generation <= models.generation)
      && (forall t :: t in downloads && t.generation == models.generation ==>
              RefreshEnabled(models.settings, models.Env()))
    }

    constructor (defs: seq<ModelDef>, duration: string -> Option<int>, valid: PluginConfig -> bool)
      ensures Valid() && models.Env() == World(defs, duration) && config.valid == valid && downloads == {}
    {
      config := new ConfigStore(valid);
      models := new ModelRegistry(defs, duration);
      downloads := {};
    }

    /** A refused request changes neither store; an accepted one changes both. */
    method Configure(request: Request) returns (ok: bool)
      requires Valid()
      modifies config, models
      ensures Valid()
      ensures ok <==> Readable(request) && (request.Empty? || config.valid(Merged(old(config.value), request)))
      ensures config.value == if ok then Merged(old(config.value), request) else old(config.value)
      ensures models.State() == if ok
                                then Configured(old(models.State()), AsConfig(config.value).settings, models.Env())
                                else old(models.State())
    {
      var cfg := config.Update(request);
      if cfg.None? { return false; }
      models.Configure(AsConfig(cfg.value).settings);
      ok := true;
    }

    /** The first half of a refresh; a download may now be outstanding. */
    method RefreshStart(now: int, stat: Option<int>) returns (ticket: Option<Ticket>)
      requires Valid()
      modifies this`downloads, models
      ensures Valid() && models.State() == Begun(old(models.State()), now, stat, models.Env())
      ensures downloads == old(downloads) + if ticket.Some? then {ticket.value} else {}
    {
      var fault;
      ticket, fault := models.RefreshStart(now, stat);
      if ticket.Some? { downloads := downloads + {ticket.value}; }
    }

    /** The second half, whenever the download is over and whatever was configured meanwhile. */
    method RefreshEnd(ticket: Ticket, doc: Option<RosterFile>, cancelled: bool, now: int)
      requires Valid() && ticket in downloads
      modifies this`downloads, models
      ensures Valid() && models.State() == Ended(old(models.State()), ticket, doc, cancelled, now)
      ensures downloads == old(downloads) - {ticket}
    {
      EndPublishes(models.State(), ticket, doc, cancelled, now, models.Env());
      models.RefreshEnd(ticket, doc, cancelled, now);
      downloads := downloads - {ticket};
    }

    /** The pair is coherent, whatever refreshes have published without the state lock. */
    method TakeSnapshot() returns (snap: (Config, Snapshot))
      requires Valid()
      ensures snap == (AsConfig(config.value), models.current) && Indexed(snap.1)
      ensures Coherent(TurnSnapshot(snap.0, snap.1.defs, models.settings, models.generation), models.Env())
    {
      snap := (AsConfig(config.value), models.current);
    }
  }
}
