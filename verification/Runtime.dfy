/** The adapter and its plugin instances as objects (go/abi_runtime.go, go/plugin.go). A stale
    reference is here what it is in the program: a reference to an instance that is no longer active.
    Each method is one critical section, or several that run under the lifecycle lock, and is proved to
    take the steps of Lifecycle; `threads` and the place of the lifecycle lock are what the rest of the
    program adds to a state. */
module Runtime {
  import opened Wrappers
  import L = Lifecycle
  import Leases

  /** The lifetime part of a plugin instance. */
  class Plugin {
    const host: L.Host
    var stopping: bool
    var tasks: int
    var sessions: Leases.Store

    constructor (host: L.Host)
      ensures Value() == L.NewPlugin(host)
    {
      this.host, stopping, tasks, sessions := host, false, 0, Leases.EMPTY;
    }

    ghost function Value(): L.Plugin
      reads this
    {
      L.Plugin(host, stopping, tasks, sessions)
    }

    /** begin: refused once stopping, else one more task. */
    method Begin() returns (ok: bool)
      modifies this`tasks
      ensures ok == !stopping && tasks == if ok then old(tasks) + 1 else old(tasks)
    {
      if stopping { return false; }
      tasks := tasks + 1;
      ok := true;
    }

    /** The done closure; sync.Once lets it through once per task. */
    method Done()
      modifies this`tasks
      ensures tasks == old(tasks) - 1
    {
      tasks := tasks - 1;
    }

    method StopAdmission()
      modifies this`stopping
      ensures stopping
    {
      stopping := true;
    }
  }

  ghost function Values(made: seq<Plugin>): (values: seq<L.Plugin>)
    reads made
    ensures |values| == |made|
    ensures forall i :: 0 <= i < |made| ==> values[i] == made[i].Value()
  {
    if made == [] then [] else Values(made[..|made| - 1]) + [made[|made| - 1].Value()]
  }

  lemma OneChanged(before: seq<L.Plugin>, now: seq<L.Plugin>, i: nat)
    requires |now| == |before| && i < |now| && forall j :: 0 <= j < |now| && j != i ==> now[j] == before[j]
    ensures now == before[i := now[i]]
  {
  }

  lemma BeginStep(s: L.State, t: nat, i: nat)
    requires t in s.threads && s.threads[t] == L.Caller(i) && i < |s.plugins|
    ensures L.Step(s, L.Begin(t)) ==
            if s.plugins[i].stopping then Some(s.(threads := s.threads - {t}))
            else Some(s.(threads := s.threads[t := L.Task(i, L.Working)],
                         plugins := s.plugins[i := s.plugins[i].(tasks := s.plugins[i].tasks + 1)]))
  {
  }

  lemma DoneStep(s: L.State, t: nat, i: nat)
    requires t in s.threads && s.threads[t] == L.Task(i, L.Returning) && i < |s.plugins|
    ensures L.Step(s, L.Done(t)) ==
            Some(s.(threads := s.threads - {t},
                    plugins := s.plugins[i := s.plugins[i].(tasks := s.plugins[i].tasks - 1)]))
  {
  }

  class PluginRuntime {
    var active: Plugin?
    var host: Option<L.Host>
    ghost var made: seq<Plugin>

    /** All instances ever made are different objects, and the active one is the newest. */
    ghost predicate Valid()
      reads this
    {
      && (forall i, j :: 0 <= i < j < |made| ==> made[i] != made[j])
      && (active != null ==> made != [] && active == made[|made| - 1])
    }

    /** This object, with the given lock place and threads, as a state of Lifecycle. */
    ghost function State(adapter: L.Adapter, threads: map<nat, L.Thread>): L.State
      reads this, made
    {
      L.State(host, if active == null || made == [] then None else Some(|made| - 1), adapter, Values(made), threads)
    }

    constructor ()
      ensures Valid() && State(L.Free, map[]) == L.INIT
    {
      active, host, made := null, None, [];
    }

    /** Initialize: nothing when an instance is active, else the host pointer and a new instance. */
    method Initialize(h: L.Host, ghost threads: map<nat, L.Thread>) returns (ok: bool)
      requires Valid()
      modifies this
      ensures Valid() && ok == (old(active) == null)
      ensures var first := L.AdapterStep(old(State(L.Free, threads)), L.InitCheck(h)).value;
              Some(State(L.Free, threads)) == if ok then Twice(first, L.Install, L.Publish) else Some(first)
    {
      if active != null { return false; }
      host := Some(h);
      active := new Plugin(h);
      made := made + [active];
      assert made[..|made| - 1] == old(made);
      ok := true;
    }

    /** The read of Handle, while the state lock is free: the caller's reference outlives the lock. */
    method Handle(ghost t: nat, ghost adapter: L.Adapter, ghost threads: map<nat, L.Thread>) returns (p: Plugin?)
      requires Valid() && t !in threads && !L.StateLocked(adapter)
      ensures p == active && (p != null ==> made != [] && made[|made| - 1] == p)
      ensures L.Step(State(adapter, threads), L.Fetch(t)) ==
              Some(State(adapter, if p == null then threads else threads[t := L.Caller(|made| - 1)]))
    {
      p := active;
    }

    /** begin through a reference handed out by Handle, whether or not it is still the active one. */
    method BeginOn(p: Plugin, ghost i: nat, ghost t: nat, ghost adapter: L.Adapter, ghost threads: map<nat, L.Thread>)
      returns (ok: bool)
      requires Valid() && i < |made| && made[i] == p && t in threads && threads[t] == L.Caller(i)
      modifies p`tasks
      ensures Valid() && ok == !p.stopping
      ensures L.Step(old(State(adapter, threads)), L.Begin(t)) ==
              Some(State(adapter, if ok then threads[t := L.Task(i, L.Working)] else threads - {t}))
    {
      ghost var before := Values(made);
      BeginStep(State(adapter, threads), t, i);
      ok := p.Begin();
      OneChanged(before, Values(made), i);
    }

    /** The done closure of a task that has nothing else left to do. */
    method DoneOn(p: Plugin, ghost i: nat, ghost t: nat, ghost adapter: L.Adapter, ghost threads: map<nat, L.Thread>)
      requires Valid() && i < |made| && made[i] == p && t in threads && threads[t] == L.Task(i, L.Returning)
      modifies p`tasks
      ensures Valid()
      ensures L.Step(old(State(adapter, threads)), L.Done(t)) == Some(State(adapter, threads - {t}))
    {
      ghost var before := Values(made);
      DoneStep(State(adapter, threads), t, i);
      p.Done();
      OneChanged(before, Values(made), i);
    }

    /** Shutdown up to the wait: the active instance, if any, admits no more tasks. */
    method ShutdownStart(ghost threads: map<nat, L.Thread>) returns (p: Plugin?)
      requires Valid()
      modifies if active == null then {} else {active}
      ensures Valid() && p == active
      ensures var first := L.AdapterStep(old(State(L.Free, threads)), L.ShutRead).value;
              if p == null then State(L.Free, threads) == first
              else L.AdapterStep(first, L.StopAdmission) == Some(State(L.Draining(|made| - 1), threads))
    {
      p := active;
      if p == null { return; }
      ghost var before := Values(made);
      p.StopAdmission();
      OneChanged(before, Values(made), |made| - 1);
    }

    /** Shutdown after the wait, which returns with no task left: pointer and instance are dropped. */
    method ShutdownFinish(ghost threads: map<nat, L.Thread>)
      requires Valid() && active != null && active.tasks == 0
      modifies this`host, this`active
      ensures Valid() && active == null && host == None
      ensures var waited := L.AdapterStep(old(State(L.Draining(|made| - 1), threads)), L.WaitDone).value;
              Some(State(L.Free, threads)) == Twice(L.AdapterStep(waited, L.LockState).value, L.ClearHost, L.DropActive)
    {
      host := None;
      active := null;
    }
  }

  /** Two steps of the lifecycle lock's holder, None when one is not possible. */
  ghost function Twice(s: L.State, a: L.Label, b: L.Label): Option<L.State> {
    var first := L.AdapterStep(s, a);
    if first.None? then None else L.AdapterStep(first.value, b)
  }
}
