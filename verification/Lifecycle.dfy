/** Task lifetime and the host pointer: go/abi_runtime.go, go/plugin.go and the ownership part of
    go/executor.go and go/stream.go, as a step system.

    One step is one region under a lock, one host callback entered or left, one release or one
    done. Several plugin instances follow one another; a caller may hold a reference to an old one
    while a shutdown and a new initialisation go by. Every interleaving of steps is a run. */
module Lifecycle {
  import opened Wrappers
  import opened Sessions
  import opened Leases

  type Host = nat

  const SESSIONS := Limits(4096, 24 * 3600 * 1_000_000_000)

  /** `host` is the pointer installed for this instance, `tasks` the WaitGroup counter. */
  datatype Plugin = Plugin(host: Host, stopping: bool, tasks: int, sessions: Store)

  datatype Phase =
    | Working                                      // an admitted call, before or outside a turn
    | Prepared(lease: Option<nat>)                 // prepareTurn returned a turn
    | Opening(lease: Option<nat>, child: nat)      // sibling task begun, upstream being opened
    | Reserved(parent: nat)                        // that sibling, not yet handed the stream
    | Relaying(lease: Option<nat>)                 // stream goroutine between callbacks
    | Calling(lease: Option<nat>, closing: bool)   // stream goroutine inside a host callback
    | Finishing(lease: Option<nat>)                // turn over, deferred release still to run
    | Returning                                    // only the deferred done is left

  /** A caller has read `active` and not yet called begin; a task is registered. */
  datatype Thread = Caller(plugin: nat) | Task(plugin: nat, phase: Phase)

  /** Where the holder of the lifecycle lock stands. */
  datatype Adapter =
    | Free
    | Installing(host: Host) | Publishing(host: Host)                            // Initialize
    | Stopping(p: nat) | Draining(p: nat) | Drained(p: nat) | Clearing(p: nat) | Dropping(p: nat)   // Shutdown

  datatype State = State(
    host: Option<Host>,
    active: Option<nat>,
    adapter: Adapter,
    plugins: seq<Plugin>,
    threads: map<nat, Thread>)

  const INIT := State(None, None, Free, [], map[])

  datatype Label =
    | InitCheck(h: Host) | Install | Publish
    | ShutRead | StopAdmission | WaitDone | LockState | ClearHost | DropActive
    | Fetch(t: nat) | Begin(t: nat)
    | Acquire(t: nat, key: Key, now: int, uuid: string) | NoIdentity(t: nat) | NoTurn(t: nat)
    | BeginSibling(t: nat, child: nat) | OpenFailed(t: nat) | Spawn(t: nat)
    | CallHost(t: nat, closing: bool) | HostReturns(t: nat)
    | FinishTurn(t: nat) | Release(t: nat, at: int) | Done(t: nat)

  /** r.mu is write-locked. */
  predicate StateLocked(a: Adapter) {
    a.Installing? || a.Publishing? || a.Clearing? || a.Dropping?
  }

  function NewPlugin(h: Host): Plugin {
    Plugin(h, false, 0, EMPTY)
  }

  /** The step a lifecycle-lock holder takes; None when the label is not the next one. */
  function AdapterStep(s: State, l: Label): Option<State> {
    var a := s.adapter;
    match l
    case InitCheck(h) =>
      if !a.Free? then None else Some(if s.active.None? then s.(adapter := Installing(h)) else s)
    case Install => if a.Installing? then Some(s.(host := Some(a.host), adapter := Publishing(a.host))) else None
    case Publish =>
      if a.Publishing? then
        Some(s.(active := Some(|s.plugins|), plugins := s.plugins + [NewPlugin(a.host)], adapter := Free))
      else None
    case ShutRead =>
      if !a.Free? then None else Some(if s.active.Some? then s.(adapter := Stopping(s.active.value)) else s)
    case StopAdmission =>
      if a.Stopping? && a.p < |s.plugins| then
        Some(s.(plugins := s.plugins[a.p := s.plugins[a.p].(stopping := true)], adapter := Draining(a.p)))
      else None
    case WaitDone =>
      if a.Draining? && a.p < |s.plugins| && s.plugins[a.p].tasks == 0 then Some(s.(adapter := Drained(a.p))) else None
    case LockState => if a.Drained? then Some(s.(adapter := Clearing(a.p))) else None
    case ClearHost => if a.Clearing? then Some(s.(host := None, adapter := Dropping(a.p))) else None
    case DropActive => if a.Dropping? then Some(s.(active := None, adapter := Free)) else None
    case _ => None
  }

  function SetPhase(s: State, t: nat, ph: Phase): State
    requires t in s.threads
  {
    s.(threads := s.threads[t := Task(s.threads[t].plugin, ph)])
  }

  /** WaitGroup.Add(n) on plugin p. */
  function AddTasks(s: State, p: nat, n: int): State
    requires p < |s.plugins|
  {
    s.(plugins := s.plugins[p := s.plugins[p].(tasks := s.plugins[p].tasks + n)])
  }

  function SetStore(s: State, p: nat, store: Store): State
    requires p < |s.plugins|
  {
    s.(plugins := s.plugins[p := s.plugins[p].(sessions := store)])
  }

  /** begin, under p.mu: refused once stopping, otherwise one more task. */
  function BeginCall(s: State, t: nat, p: nat): State
    requires t in s.threads && p < |s.plugins|
  {
    if s.plugins[p].stopping then s.(threads := s.threads - {t})
    else AddTasks(s.(threads := s.threads[t := Task(p, Working)]), p, 1)
  }

  /** acquire, under the store's lock. */
  function AcquireLease(s: State, t: nat, p: nat, key: Key, now: int, uuid: string): State
    requires t in s.threads && p < |s.plugins|
  {
    var (ok, store) := Take(s.plugins[p].sessions, SESSIONS, key, now, uuid);
    Acquired(s, t, p, ok, store)
  }

  /** A granted lease makes a turn; session_busy ends the call. */
  function Acquired(s: State, t: nat, p: nat, ok: bool, store: Store): State
    requires t in s.threads && p < |s.plugins|
  {
    SetPhase(SetStore(s, p, store), t, if ok then Prepared(Some(|s.plugins[p].sessions.leases|)) else Returning)
  }

  /** The second begin of executeStream, under p.mu. */
  function BeginStream(s: State, t: nat, p: nat, lease: Option<nat>, child: nat): State
    requires t in s.threads && p < |s.plugins|
  {
    if s.plugins[p].stopping then SetPhase(s, t, Finishing(lease))
    else AddTasks(s.(threads := s.threads[t := Task(p, Opening(lease, child))][child := Task(p, Reserved(t))]), p, 1)
  }

  /** Open failed or answered with an error status: done() of the sibling. */
  function DropStream(s: State, t: nat, p: nat, lease: Option<nat>, child: nat): State
    requires t in s.threads && p < |s.plugins|
  {
    AddTasks(s.(threads := s.threads[t := Task(p, Finishing(lease))] - {child}), p, -1)
  }

  /** transferred = true and the go statement: the stream task takes the lease along. */
  function HandOver(s: State, t: nat, p: nat, lease: Option<nat>, child: nat): State
    requires t in s.threads
  {
    s.(threads := s.threads[t := Task(p, Returning)][child := Task(p, Relaying(lease))])
  }

  /** The release closure of lease i, under the store's lock. */
  function GiveBack(s: State, t: nat, p: nat, i: nat, at: int): State
    requires t in s.threads && p < |s.plugins| && i < |s.plugins[p].sessions.leases|
  {
    SetPhase(SetStore(s, p, Return(s.plugins[p].sessions, i, at)), t, Returning)
  }

  /** A step of thread `t`, which belongs to plugin `p`. */
  function ThreadStep(s: State, t: nat, p: nat, l: Label): Option<State>
    requires t in s.threads && s.threads[t].plugin == p < |s.plugins|
  {
    var th := s.threads[t];
    match l
    case Begin(_) => if th.Caller? then Some(BeginCall(s, t, p)) else None
    case NoTurn(_) => if th == Task(p, Working) then Some(SetPhase(s, t, Returning)) else None
    case NoIdentity(_) => if th == Task(p, Working) then Some(SetPhase(s, t, Prepared(None))) else None
    case Acquire(_, key, now, uuid) =>
      if th == Task(p, Working) then Some(AcquireLease(s, t, p, key, now, uuid)) else None
    case BeginSibling(_, child) =>
      if th.Task? && th.phase.Prepared? && child !in s.threads then
        Some(BeginStream(s, t, p, th.phase.lease, child))
      else None
    case OpenFailed(_) =>
      if th.Task? && th.phase.Opening? then Some(DropStream(s, t, p, th.phase.lease, th.phase.child)) else None
    case Spawn(_) =>
      if th.Task? && th.phase.Opening? then Some(HandOver(s, t, p, th.phase.lease, th.phase.child)) else None
    case CallHost(_, closing) =>
      if th.Task? && th.phase.Relaying? then Some(SetPhase(s, t, Calling(th.phase.lease, closing))) else None
    case HostReturns(_) =>
      if th.Task? && th.phase.Calling? then
        Some(SetPhase(s, t, if th.phase.closing then Finishing(th.phase.lease) else Relaying(th.phase.lease)))
      else None
    case FinishTurn(_) =>
      if th.Task? && th.phase.Prepared? then Some(SetPhase(s, t, Finishing(th.phase.lease))) else None
    case Release(_, at) =>
      if !th.Task? || !th.phase.Finishing? then None
      else if th.phase.lease.None? then Some(SetPhase(s, t, Returning))
      else if th.phase.lease.value < |s.plugins[p].sessions.leases| then
        Some(GiveBack(s, t, p, th.phase.lease.value, at))
      else None
    case Done(_) =>
      if th == Task(p, Returning) then Some(AddTasks(s.(threads := s.threads - {t}), p, -1)) else None
    case _ => None
  }

  predicate OfAdapter(l: Label) {
    l.InitCheck? || l.Install? || l.Publish? || l.ShutRead? || l.StopAdmission? || l.WaitDone?
    || l.LockState? || l.ClearHost? || l.DropActive?
  }

  function Step(s: State, l: Label): Option<State> {
    if OfAdapter(l) then AdapterStep(s, l)
    else if l.Fetch? then
      if l.t in s.threads || StateLocked(s.adapter) then None
      else if s.active.None? then Some(s)
      else Some(s.(threads := s.threads[l.t := Caller(s.active.value)]))
    else if l.t in s.threads && s.threads[l.t].plugin < |s.plugins| then
      ThreadStep(s, l.t, s.threads[l.t].plugin, l)
    else None
  }

  /** The state a sequence of steps leads to, None when some step was not possible. */
  function After(labels: seq<Label>): Option<State> {
    if labels == [] then Some(INIT)
    else
      var before := After(labels[..|labels| - 1]);
      if before.None? then None else Step(before.value, labels[|labels| - 1])
  }
}
