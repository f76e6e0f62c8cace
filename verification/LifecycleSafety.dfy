/** What every run of the task lifecycle keeps. */
module LifecycleSafety {
  import opened Wrappers
  import opened Sessions
  import opened Leases
  import opened Lifecycle

  // ---------- vocabulary ----------

  /** The registered tasks of plugin p. */
  ghost function Live(threads: map<nat, Thread>, p: nat): set<nat> {
    set t | t in threads && threads[t].Task? && threads[t].plugin == p
  }

  function LeaseOf(th: Thread): Option<nat> {
    match th
    case Task(_, Prepared(lease)) => lease
    case Task(_, Opening(lease, _)) => lease
    case Task(_, Relaying(lease)) => lease
    case Task(_, Calling(lease, _)) => lease
    case Task(_, Finishing(lease)) => lease
    case _ => None
  }

  /** Thread t is a registered task of plugin p that has lease i to release. */
  predicate Owns(threads: map<nat, Thread>, t: nat, p: nat, i: nat) {
    t in threads && threads[t].plugin == p && LeaseOf(threads[t]) == Some(i)
  }

  // ---------- the invariant ----------

  /** Plugin p is the newest and its host pointer is the stored one. */
  ghost predicate Serving(s: State, p: nat) {
    s.active == Some(p) && p == |s.plugins| - 1 && s.host == Some(s.plugins[p].host)
  }

  ghost predicate AdapterOk(s: State) {
    match s.adapter
    case Free =>
      if s.active.Some? then Serving(s, s.active.value) && !s.plugins[s.active.value].stopping else s.host.None?
    case Installing(h) => s.active.None? && s.host.None?
    case Publishing(h) => s.active.None? && s.host == Some(h)
    case Stopping(p) => Serving(s, p) && !s.plugins[p].stopping
    case Draining(p) => Serving(s, p) && s.plugins[p].stopping
    case Drained(p) => Serving(s, p) && s.plugins[p].stopping && s.plugins[p].tasks == 0
    case Clearing(p) => Serving(s, p) && s.plugins[p].stopping && s.plugins[p].tasks == 0
    case Dropping(p) =>
      && s.active == Some(p) && p == |s.plugins| - 1 && s.host.None?
      && s.plugins[p].stopping && s.plugins[p].tasks == 0
  }

  /** Every instance but the active one has stopped and drained. */
  ghost predicate OldDrained(s: State) {
    forall q :: 0 <= q < |s.plugins| && s.active != Some(q) ==> s.plugins[q].stopping && s.plugins[q].tasks == 0
  }

  ghost predicate Counted(s: State) {
    forall p :: 0 <= p < |s.plugins| ==> s.plugins[p].tasks == |Live(s.threads, p)|
  }

  /** Threads belong to existing plugins, and an opening turn and its reserved sibling point at each other. */
  ghost predicate Linked(s: State) {
    && (forall t :: t in s.threads ==> s.threads[t].plugin < |s.plugins|)
    && (forall t :: t in s.threads && s.threads[t].Task? && s.threads[t].phase.Opening? ==>
          var c := s.threads[t].phase.child;
          c in s.threads && s.threads[c] == Task(s.threads[t].plugin, Reserved(t)))
    && (forall c :: c in s.threads && s.threads[c].Task? && s.threads[c].phase.Reserved? ==>
          var t := s.threads[c].phase.parent;
          t in s.threads && s.threads[t].Task? && s.threads[t].phase.Opening? && s.threads[t].phase.child == c)
  }

  ghost predicate StoresOk(s: State) {
    forall p :: 0 <= p < |s.plugins| ==> Leases.Inv(s.plugins[p].sessions, SESSIONS.capacity)
  }

  /** Outstanding leases and the tasks that will release them correspond one to one. */
  ghost predicate Owned(s: State) {
    && (forall t, p: nat, i: nat :: Owns(s.threads, t, p, i) && p < |s.plugins| ==>
            Open(s.plugins[p].sessions.leases, i))
    && (forall t, u, p: nat, i: nat :: Owns(s.threads, t, p, i) && Owns(s.threads, u, p, i) ==> t == u)
    && (forall p, i: nat :: 0 <= p < |s.plugins| && Open(s.plugins[p].sessions.leases, i) ==> HasOwner(s.threads, p, i))
  }

  ghost predicate HasOwner(threads: map<nat, Thread>, p: nat, i: nat) {
    exists t :: Owns(threads, t, p, i)
  }

  ghost predicate Inv(s: State) {
    Core(s) && Owned(s)
  }

  ghost predicate Core(s: State) {
    AdapterOk(s) && OldDrained(s) && Counted(s) && Linked(s) && StoresOk(s)
  }

  // ---------- counting tasks ----------

  lemma LiveAdd(m: map<nat, Thread>, t: nat, p: nat, ph: Phase)
    requires t !in m || m[t].Caller?
    ensures |Live(m[t := Task(p, ph)], p)| == |Live(m, p)| + 1
    ensures forall q: nat :: q != p ==> Live(m[t := Task(p, ph)], q) == Live(m, q)
  {
    assert Live(m[t := Task(p, ph)], p) == Live(m, p) + {t};
  }

  lemma LiveDrop(m: map<nat, Thread>, t: nat)
    requires t in m && m[t].Task?
    ensures |Live(m - {t}, m[t].plugin)| == |Live(m, m[t].plugin)| - 1
    ensures forall q: nat :: q != m[t].plugin ==> Live(m - {t}, q) == Live(m, q)
  {
    assert Live(m, m[t].plugin) == Live(m - {t}, m[t].plugin) + {t};
  }

  lemma LiveSame(m: map<nat, Thread>, t: nat, ph: Phase)
    requires t in m && m[t].Task?
    ensures forall q: nat :: Live(m[t := Task(m[t].plugin, ph)], q) == Live(m, q)
  {
  }

  lemma LiveCaller(m: map<nat, Thread>, t: nat, p: nat)
    requires t !in m || m[t].Caller?
    ensures forall q: nat :: Live(m[t := Caller(p)], q) == Live(m, q) && Live(m - {t}, q) == Live(m, q)
  {
  }

  // ---------- adapter steps ----------

  lemma AdapterKeepsInv(s: State, l: Label)
    requires Inv(s) && AdapterStep(s, l).Some?
    ensures Inv(AdapterStep(s, l).value)
  {
    if l.Publish? {
      PublishKeepsInv(s, s.adapter.host);
    } else if l.StopAdmission? {
      StopKeepsInv(s, s.adapter.p);
    } else {
      var r := AdapterStep(s, l).value;
      assert AdapterOk(r) && r.plugins == s.plugins && r.threads == s.threads;
    }
  }

  lemma StopKeepsInv(s: State, p: nat)
    requires Inv(s) && s.adapter == Stopping(p)
    ensures Inv(AdapterStep(s, StopAdmission).value)
  {
    var r := AdapterStep(s, StopAdmission).value;
    assert forall q :: 0 <= q < |s.plugins| ==>
            r.plugins[q].tasks == s.plugins[q].tasks && r.plugins[q].sessions == s.plugins[q].sessions;
  }

  lemma PublishKeepsInv(s: State, h: Host)
    requires Inv(s) && s.adapter == Publishing(h)
    ensures Inv(AdapterStep(s, Publish).value)
  {
    FreshPluginIsEmpty(s, h);
    var r := AdapterStep(s, Publish).value;
    assert forall q :: 0 <= q < |s.plugins| ==> r.plugins[q] == s.plugins[q];
    assert Core(r) && Owned(r);
  }

  lemma FreshPluginIsEmpty(s: State, h: Host)
    requires Linked(s)
    ensures Live(s.threads, |s.plugins|) == {}
    ensures Leases.Inv(EMPTY, SESSIONS.capacity)
    ensures forall t, i: nat :: !Owns(s.threads, t, |s.plugins|, i)
  {
    assert View([]) == map[];
  }

  // ---------- thread steps ----------

  /** Changing the counter of a plugin that still admits or still has tasks disturbs no shutdown. */
  lemma CounterMoves(s: State, p: nat, n: int)
    requires AdapterOk(s) && OldDrained(s) && p < |s.plugins|
    requires !s.plugins[p].stopping || s.plugins[p].tasks != 0
    ensures AdapterOk(AddTasks(s, p, n)) && OldDrained(AddTasks(s, p, n))
  {
  }

  predicate Plain(ph: Phase) {
    !ph.Opening? && !ph.Reserved?
  }

  lemma PhaseCore(s: State, t: nat, ph: Phase)
    requires Core(s) && t in s.threads && s.threads[t].Task? && Plain(ph) && Plain(s.threads[t].phase)
    ensures Core(SetPhase(s, t, ph))
  {
    LiveSame(s.threads, t, ph);
  }

  lemma StoreCore(s: State, p: nat, store: Store)
    requires Core(s) && p < |s.plugins| && Leases.Inv(store, SESSIONS.capacity)
    ensures Core(SetStore(s, p, store))
  {
  }

  /** A task moves on without taking, passing on or releasing anything. */
  lemma PhaseOnly(s: State, t: nat, ph: Phase)
    requires Inv(s) && t in s.threads && s.threads[t].Task?
    requires LeaseOf(Task(s.threads[t].plugin, ph)) == LeaseOf(s.threads[t])
    requires Plain(ph) && Plain(s.threads[t].phase)
    ensures Inv(SetPhase(s, t, ph))
  {
    PhaseCore(s, t, ph);
    SameOwners(s.threads, SetPhase(s, t, ph).threads);
  }

  /** Owners are untouched when every thread keeps its plugin and lease. */
  lemma SameOwners(m: map<nat, Thread>, m': map<nat, Thread>)
    requires forall t, p: nat, i: nat :: Owns(m', t, p, i) <==> Owns(m, t, p, i)
    ensures forall p: nat, i: nat :: HasOwner(m', p, i) <==> HasOwner(m, p, i)
  {
    forall p: nat, i: nat ensures HasOwner(m', p, i) <==> HasOwner(m, p, i) {
      if HasOwner(m, p, i) { var t :| Owns(m, t, p, i); assert Owns(m', t, p, i); }
      if HasOwner(m', p, i) { var t :| Owns(m', t, p, i); assert Owns(m, t, p, i); }
    }
  }

  /** New threads, and n more or fewer registered tasks of p, with the counter moved to match. */
  lemma Rethread(s: State, m': map<nat, Thread>, p: nat, n: int)
    requires Inv(s) && p < |s.plugins| && (!s.plugins[p].stopping || s.plugins[p].tasks != 0)
    requires Linked(s.(threads := m'))
    requires forall t, q: nat, i: nat :: Owns(m', t, q, i) <==> Owns(s.threads, t, q, i)
    requires forall q: nat :: |Live(m', q)| == |Live(s.threads, q)| + (if q == p then n else 0)
    ensures Inv(AddTasks(s.(threads := m'), p, n))
  {
    SameOwners(s.threads, m');
    CounterMoves(s.(threads := m'), p, n);
  }

  lemma FetchKeepsInv(s: State, t: nat)
    requires Inv(s) && t !in s.threads && s.active.Some?
    ensures Inv(s.(threads := s.threads[t := Caller(s.active.value)]))
  {
    LiveCaller(s.threads, t, s.active.value);
    SameOwners(s.threads, s.threads[t := Caller(s.active.value)]);
  }

  lemma RefusedKeepsInv(s: State, t: nat)
    requires Inv(s) && t in s.threads && s.threads[t].Caller?
    ensures Inv(s.(threads := s.threads - {t}))
  {
    LiveCaller(s.threads, t, 0);
    SameOwners(s.threads, s.threads - {t});
  }

  lemma BeginKeepsInv(s: State, t: nat, p: nat)
    requires Inv(s) && t in s.threads && s.threads[t] == Caller(p) && !s.plugins[p].stopping
    ensures Inv(BeginCall(s, t, p))
  {
    LiveAdd(s.threads, t, p, Working);
    Rethread(s, s.threads[t := Task(p, Working)], p, 1);
  }

  /** A live task's plugin has a positive counter, so it is the active one and not drained. */
  lemma LiveIsActive(s: State, t: nat)
    requires Inv(s) && t in s.threads && s.threads[t].Task?
    ensures var p := s.threads[t].plugin; s.plugins[p].tasks > 0 && Serving(s, p)
  {
    assert t in Live(s.threads, s.threads[t].plugin);
  }

  lemma DoneKeepsInv(s: State, t: nat)
    requires Inv(s) && t in s.threads && s.threads[t].Task? && s.threads[t].phase.Returning?
    ensures Inv(AddTasks(s.(threads := s.threads - {t}), s.threads[t].plugin, -1))
  {
    LiveIsActive(s, t);
    LiveDrop(s.threads, t);
    Rethread(s, s.threads - {t}, s.threads[t].plugin, -1);
  }

  /** acquire inside an admitted call. */
  lemma AcquireKeepsInv(s: State, t: nat, p: nat, key: Key, now: int, uuid: string)
    requires Inv(s) && t in s.threads && s.threads[t] == Task(p, Working)
    ensures Inv(AcquireLease(s, t, p, key, now, uuid))
  {
    var was := s.plugins[p].sessions;
    TakeKeepsInv(was, SESSIONS, key, now, uuid);
    TakeLeases(was, SESSIONS, key, now, uuid);
    var (ok, store) := Take(was, SESSIONS, key, now, uuid);
    if ok {
      GrantedKeepsInv(s, t, p, store);
    } else {
      DeniedKeepsInv(s, t, p, store);
    }
  }

  lemma TakeLeases(s: Store, lim: Limits, key: Key, now: int, uuid: string)
    ensures var (ok, r) := Take(s, lim, key, now, uuid);
            if ok then exists id :: r.leases == s.leases + [Lease(key, id, false)] else r.leases == s.leases
  {
  }

  lemma GrantedKeepsInv(s: State, t: nat, p: nat, store: Store)
    requires Inv(s) && t in s.threads && s.threads[t] == Task(p, Working)
    requires Leases.Inv(store, SESSIONS.capacity)
    requires exists l: Lease :: !l.spent && store.leases == s.plugins[p].sessions.leases + [l]
    ensures Inv(Acquired(s, t, p, true, store))
  {
    var i := |s.plugins[p].sessions.leases|;
    StoreCore(s, p, store);
    PhaseCore(SetStore(s, p, store), t, Prepared(Some(i)));
    LeaseGained(s, Acquired(s, t, p, true, store), t, p, i);
  }

  lemma DeniedKeepsInv(s: State, t: nat, p: nat, store: Store)
    requires Inv(s) && t in s.threads && s.threads[t] == Task(p, Working)
    requires Leases.Inv(store, SESSIONS.capacity) && store.leases == s.plugins[p].sessions.leases
    ensures Inv(Acquired(s, t, p, false, store))
  {
    StoreCore(s, p, store);
    assert Owned(SetStore(s, p, store));
    PhaseOnly(SetStore(s, p, store), t, Returning);
  }

  lemma LeaseGained(s: State, r: State, t: nat, p: nat, i: nat)
    requires Linked(s) && Owned(s) && p < |s.plugins| && t in s.threads && s.threads[t] == Task(p, Working)
    requires |r.plugins| == |s.plugins| && r.threads == s.threads[t := Task(p, Prepared(Some(i)))]
    requires forall q :: 0 <= q < |s.plugins| && q != p ==> r.plugins[q].sessions == s.plugins[q].sessions
    requires i == |s.plugins[p].sessions.leases|
    requires forall j :: Open(r.plugins[p].sessions.leases, j) <==> Open(s.plugins[p].sessions.leases, j) || j == i
    ensures Owned(r)
  {
    var m, m' := s.threads, r.threads;
    assert forall u, q: nat, j: nat :: Owns(m', u, q, j) <==> Owns(m, u, q, j) || (u == t && q == p && j == i);
    forall q: nat, j: nat | q < |r.plugins| && Open(r.plugins[q].sessions.leases, j) ensures HasOwner(m', q, j) {
      if q == p && j == i {
        assert Owns(m', t, p, i);
      } else {
        var u :| Owns(m, u, q, j);
        assert Owns(m', u, q, j);
      }
    }
  }

  /** The deferred release of a task that holds lease i. */
  lemma ReleaseKeepsInv(s: State, t: nat, p: nat, i: nat, at: int)
    requires Inv(s) && t in s.threads && s.threads[t] == Task(p, Finishing(Some(i)))
    ensures Open(s.plugins[p].sessions.leases, i)
    ensures Inv(GiveBack(s, t, p, i, at))
  {
    var store := s.plugins[p].sessions;
    assert Owns(s.threads, t, p, i);
    ReturnKeepsInv(store, i, at, SESSIONS.capacity);
    StoreCore(s, p, Return(store, i, at));
    PhaseCore(SetStore(s, p, Return(store, i, at)), t, Returning);
    LeaseGiven(s, GiveBack(s, t, p, i, at), t, p, i);
  }

  lemma LeaseGiven(s: State, r: State, t: nat, p: nat, i: nat)
    requires Owned(s) && p < |s.plugins| && Owns(s.threads, t, p, i)
    requires |r.plugins| == |s.plugins| && r.threads == s.threads[t := Task(p, Returning)]
    requires forall q :: 0 <= q < |s.plugins| && q != p ==> r.plugins[q].sessions == s.plugins[q].sessions
    requires forall j :: Open(r.plugins[p].sessions.leases, j) <==> Open(s.plugins[p].sessions.leases, j) && j != i
    ensures Owned(r)
  {
    var m, m' := s.threads, r.threads;
    assert forall u, q: nat, j: nat :: Owns(m', u, q, j) <==> Owns(m, u, q, j) && u != t;
    forall q: nat, j: nat | q < |r.plugins| && Open(r.plugins[q].sessions.leases, j) ensures HasOwner(m', q, j) {
      var u :| Owns(m, u, q, j);
      assert Owns(m', u, q, j);
    }
  }

  /** The sibling task is registered while its parent still owns the turn. */
  lemma SiblingKeepsInv(s: State, t: nat, p: nat, lease: Option<nat>, child: nat)
    requires Inv(s) && t in s.threads && s.threads[t] == Task(p, Prepared(lease))
    requires child !in s.threads && !s.plugins[p].stopping
    ensures Inv(BeginStream(s, t, p, lease, child))
  {
    var m' := s.threads[t := Task(p, Opening(lease, child))][child := Task(p, Reserved(t))];
    SiblingThreads(s.threads, t, p, lease, child);
    SiblingLinked(s, t, p, lease, child);
    Rethread(s, m', p, 1);
  }

  lemma SiblingThreads(m: map<nat, Thread>, t: nat, p: nat, lease: Option<nat>, child: nat)
    requires t in m && m[t] == Task(p, Prepared(lease)) && child !in m
    ensures var m' := m[t := Task(p, Opening(lease, child))][child := Task(p, Reserved(t))];
            && (forall u, q: nat, i: nat :: Owns(m', u, q, i) <==> Owns(m, u, q, i))
            && (forall q: nat :: |Live(m', q)| == |Live(m, q)| + (if q == p then 1 else 0))
  {
    LiveSame(m, t, Opening(lease, child));
    LiveAdd(m[t := Task(p, Opening(lease, child))], child, p, Reserved(t));
  }

  lemma SiblingLinked(s: State, t: nat, p: nat, lease: Option<nat>, child: nat)
    requires Linked(s) && t in s.threads && s.threads[t] == Task(p, Prepared(lease)) && child !in s.threads
    ensures Linked(s.(threads := s.threads[t := Task(p, Opening(lease, child))][child := Task(p, Reserved(t))]))
  {
  }

  /** The upstream could not be opened: the sibling is done and the parent keeps the turn. */
  lemma OpenFailedKeepsInv(s: State, t: nat, p: nat, lease: Option<nat>, child: nat)
    requires Inv(s) && t in s.threads && s.threads[t] == Task(p, Opening(lease, child))
    ensures Inv(DropStream(s, t, p, lease, child))
  {
    LiveIsActive(s, t);
    DropThreads(s.threads, t, p, lease, child);
    DropLinked(s, t, p, lease, child);
    Rethread(s, s.threads[t := Task(p, Finishing(lease))] - {child}, p, -1);
  }

  lemma DropThreads(m: map<nat, Thread>, t: nat, p: nat, lease: Option<nat>, child: nat)
    requires t in m && m[t] == Task(p, Opening(lease, child))
    requires child in m && m[child] == Task(p, Reserved(t))
    ensures var m' := m[t := Task(p, Finishing(lease))] - {child};
            && (forall u, q: nat, i: nat :: Owns(m', u, q, i) <==> Owns(m, u, q, i))
            && (forall q: nat :: |Live(m', q)| == |Live(m, q)| + (if q == p then -1 else 0))
  {
    LiveSame(m, t, Finishing(lease));
    LiveDrop(m[t := Task(p, Finishing(lease))], child);
  }

  lemma DropLinked(s: State, t: nat, p: nat, lease: Option<nat>, child: nat)
    requires Linked(s) && t in s.threads && s.threads[t] == Task(p, Opening(lease, child))
    ensures Linked(s.(threads := s.threads[t := Task(p, Finishing(lease))] - {child}))
  {
  }

  /** The turn's lease passes from the parent to the sibling in one step. */
  lemma SpawnKeepsInv(s: State, t: nat, p: nat, lease: Option<nat>, child: nat)
    requires Inv(s) && t in s.threads && s.threads[t] == Task(p, Opening(lease, child))
    ensures Inv(HandOver(s, t, p, lease, child))
  {
    var m' := s.threads[t := Task(p, Returning)][child := Task(p, Relaying(lease))];
    HandOverThreads(s.threads, t, p, lease, child);
    LeasePasses(s.threads, m', t, child);
    HandOverLinked(s, t, p, lease, child);
  }

  lemma HandOverThreads(m: map<nat, Thread>, t: nat, p: nat, lease: Option<nat>, child: nat)
    requires t in m && m[t] == Task(p, Opening(lease, child))
    requires child in m && m[child] == Task(p, Reserved(t))
    ensures var m' := m[t := Task(p, Returning)][child := Task(p, Relaying(lease))];
            && (forall q: nat, i: nat :: !Owns(m, child, q, i) && !Owns(m', t, q, i))
            && (forall q: nat, i: nat :: Owns(m', child, q, i) <==> Owns(m, t, q, i))
            && (forall u, q: nat, i: nat :: u != t && u != child ==> (Owns(m', u, q, i) <==> Owns(m, u, q, i)))
            && (forall q: nat :: Live(m', q) == Live(m, q))
  {
    LiveSame(m, t, Returning);
    LiveSame(m[t := Task(p, Returning)], child, Relaying(lease));
  }

  lemma HandOverLinked(s: State, t: nat, p: nat, lease: Option<nat>, child: nat)
    requires Linked(s) && t in s.threads && s.threads[t] == Task(p, Opening(lease, child))
    ensures Linked(HandOver(s, t, p, lease, child))
  {
  }

  lemma LeasePasses(m: map<nat, Thread>, m': map<nat, Thread>, t: nat, child: nat)
    requires t != child
    requires forall q: nat, i: nat :: !Owns(m, child, q, i) && !Owns(m', t, q, i)
    requires forall q: nat, i: nat :: Owns(m', child, q, i) <==> Owns(m, t, q, i)
    requires forall u, q: nat, i: nat :: u != t && u != child ==> (Owns(m', u, q, i) <==> Owns(m, u, q, i))
    requires forall u, v, q: nat, i: nat :: Owns(m, u, q, i) && Owns(m, v, q, i) ==> u == v
    ensures forall u, v, q: nat, i: nat :: Owns(m', u, q, i) && Owns(m', v, q, i) ==> u == v
    ensures forall q: nat, i: nat :: HasOwner(m', q, i) <==> HasOwner(m, q, i)
    ensures forall u, q: nat, i: nat :: Owns(m', u, q, i) ==> HasOwner(m, q, i)
  {
    forall q: nat, i: nat ensures HasOwner(m', q, i) <==> HasOwner(m, q, i) {
      if HasOwner(m, q, i) {
        var u :| Owns(m, u, q, i);
        assert Owns(m', if u == t then child else u, q, i);
      }
      if HasOwner(m', q, i) {
        var u :| Owns(m', u, q, i);
        assert Owns(m, if u == child then t else u, q, i);
      }
    }
  }

  lemma ThreadKeepsInv(s: State, t: nat, l: Label)
    requires Inv(s) && t in s.threads
    requires ThreadStep(s, t, s.threads[t].plugin, l).Some?
    ensures Inv(ThreadStep(s, t, s.threads[t].plugin, l).value)
  {
    var p := s.threads[t].plugin;
    var th := s.threads[t];
    match l
    case Begin(_) => if s.plugins[p].stopping { RefusedKeepsInv(s, t); } else { BeginKeepsInv(s, t, p); }
    case NoTurn(_) => PhaseOnly(s, t, Returning);
    case NoIdentity(_) => PhaseOnly(s, t, Prepared(None));
    case Acquire(_, key, now, uuid) => AcquireKeepsInv(s, t, p, key, now, uuid);
    case BeginSibling(_, child) =>
      if s.plugins[p].stopping { PhaseOnly(s, t, Finishing(th.phase.lease)); }
      else { SiblingKeepsInv(s, t, p, th.phase.lease, child); }
    case OpenFailed(_) => OpenFailedKeepsInv(s, t, p, th.phase.lease, th.phase.child);
    case Spawn(_) => SpawnKeepsInv(s, t, p, th.phase.lease, th.phase.child);
    case CallHost(_, closing) => PhaseOnly(s, t, Calling(th.phase.lease, closing));
    case HostReturns(_) =>
      PhaseOnly(s, t, if th.phase.closing then Finishing(th.phase.lease) else Relaying(th.phase.lease));
    case FinishTurn(_) => PhaseOnly(s, t, Finishing(th.phase.lease));
    case Release(_, at) =>
      if th.phase.lease.None? {
        PhaseOnly(s, t, Returning);
      } else {
        ReleaseKeepsInv(s, t, p, th.phase.lease.value, at);
      }
    case Done(_) => DoneKeepsInv(s, t);
    case _ =>
  }

  lemma StepKeepsInv(s: State, l: Label)
    requires Inv(s) && Step(s, l).Some?
    ensures Inv(Step(s, l).value)
  {
    if OfAdapter(l) {
      AdapterKeepsInv(s, l);
    } else if l.Fetch? {
      if s.active.Some? { FetchKeepsInv(s, l.t); }
    } else {
      ThreadKeepsInv(s, l.t, l);
    }
  }

  /** Every state of every run satisfies the invariant. */
  lemma {:induction false} EveryRunKeepsInv(labels: seq<Label>)
    requires After(labels).Some?
    ensures Inv(After(labels).value)
  {
    if labels != [] {
      EveryRunKeepsInv(labels[..|labels| - 1]);
      StepKeepsInv(After(labels[..|labels| - 1]).value, labels[|labels| - 1]);
    }
  }

  // ---------- main results ----------

  /** While a stream goroutine is inside a host callback, and at every other moment of any
      registered task, the stored host pointer is the one installed for that task's own plugin. */
  lemma CallbackUsesOwnHost(labels: seq<Label>, t: nat)
    requires After(labels).Some? && t in After(labels).value.threads && After(labels).value.threads[t].Task?
    ensures var s := After(labels).value;
            && s.threads[t].plugin < |s.plugins|
            && s.host == Some(s.plugins[s.threads[t].plugin].host)
            && s.active == Some(s.threads[t].plugin)
  {
    EveryRunKeepsInv(labels);
    LiveIsActive(After(labels).value, t);
  }

  /** begin through a reference to an instance that is no longer the active one is refused, however
      late it comes and whatever has been initialised since: the call ends and nothing else changes. */
  lemma StaleCallerIsRefused(labels: seq<Label>, t: nat)
    requires After(labels).Some? && t in After(labels).value.threads && After(labels).value.threads[t].Caller?
    requires After(labels).value.active != Some(After(labels).value.threads[t].plugin)
    ensures var s := After(labels).value;
            Step(s, Begin(t)) == Some(s.(threads := s.threads - {t}))
  {
    EveryRunKeepsInv(labels);
  }

  /** Whenever the host pointer is about to be cleared, no instance has a registered task, no stream
      is inside a callback, and no conversation of any instance is busy. */
  lemma HostClearedOnlyWhenDrained(labels: seq<Label>)
    requires After(labels).Some? && Step(After(labels).value, ClearHost).Some?
    ensures var s := After(labels).value;
            forall p :: 0 <= p < |s.plugins| ==>
              s.plugins[p].tasks == 0 && Live(s.threads, p) == {} && NothingBusy(s.plugins[p].sessions)
  {
    EveryRunKeepsInv(labels);
    var s := After(labels).value;
    forall p | 0 <= p < |s.plugins| ensures Live(s.threads, p) == {} && NothingBusy(s.plugins[p].sessions) {
      DrainedIsIdle(s, p);
    }
  }

  ghost predicate NothingBusy(store: Store) {
    forall k :: k in View(store.rows) ==> !View(store.rows)[k].busy
  }

  lemma DrainedIsIdle(s: State, p: nat)
    requires Inv(s) && p < |s.plugins| && s.plugins[p].tasks == 0
    ensures Live(s.threads, p) == {}
    ensures forall i :: !Open(s.plugins[p].sessions.leases, i)
    ensures NothingBusy(s.plugins[p].sessions)
  {
    var store := s.plugins[p].sessions;
    assert |Live(s.threads, p)| == 0;
    forall t, i: nat ensures !Owns(s.threads, t, p, i) {
      assert t !in Live(s.threads, p);
    }
  }

  /** Shutdown's Wait has returned for instance p: it is being dropped, or already dropped. */
  predicate Waited(s: State, p: nat) {
    s.active != Some(p) || s.adapter == Drained(p) || s.adapter == Clearing(p) || s.adapter == Dropping(p)
  }

  lemma WaitedHasDrained(s: State, p: nat)
    requires Inv(s) && p < |s.plugins| && Waited(s, p)
    ensures s.plugins[p].stopping && s.plugins[p].tasks == 0 && s.adapter != Stopping(p)
  {
  }

  lemma WaitedStays(s: State, l: Label, p: nat)
    requires Inv(s) && p < |s.plugins| && Waited(s, p) && Step(s, l).Some?
    ensures Waited(Step(s, l).value, p)
  {
    if OfAdapter(l) {
      AdapterKeepsWaited(s, l, p);
    } else if !l.Fetch? {
      ThreadLeavesAdapter(s, l);
    }
  }

  lemma AdapterKeepsWaited(s: State, l: Label, p: nat)
    requires AdapterOk(s) && p < |s.plugins| && Waited(s, p) && AdapterStep(s, l).Some?
    ensures Waited(AdapterStep(s, l).value, p)
  {
  }

  lemma ThreadLeavesAdapter(s: State, l: Label)
    requires !OfAdapter(l) && !l.Fetch? && Step(s, l).Some?
    ensures Step(s, l).value.active == s.active && Step(s, l).value.adapter == s.adapter
  {
  }

  /** Instance p has drained in s and is the same in a later state. */
  predicate StaysDrained(s: State, later: State, p: nat) {
    p < |s.plugins| && p < |later.plugins| && later.plugins[p] == s.plugins[p] && Waited(later, p)
  }

  lemma OneMoreStep(before: seq<Label>, l: Label)
    requires After(before + [l]).Some?
    ensures After(before).Some? && After(before + [l]) == Step(After(before).value, l)
  {
    assert (before + [l])[..|before|] == before;
  }

  lemma {:induction false} AfterWaitNothingChanges(s: State, labels: seq<Label>, more: seq<Label>, p: nat)
    requires After(labels) == Some(s) && p < |s.plugins| && Waited(s, p)
    requires After(labels + more).Some?
    ensures StaysDrained(s, After(labels + more).value, p)
  {
    if more == [] {
      assert labels + more == labels;
    } else {
      var before, l := labels + more[..|more| - 1], more[|more| - 1];
      assert labels + more == before + [l];
      OneMoreStep(before, l);
      AfterWaitNothingChanges(s, labels, more[..|more| - 1], p);
      EveryRunKeepsInv(before);
      WaitedStep(After(before).value, l, p);
    }
  }

  lemma WaitedStep(s: State, l: Label, p: nat)
    requires Inv(s) && p < |s.plugins| && Waited(s, p) && Step(s, l).Some?
    ensures var s' := Step(s, l).value; p < |s'.plugins| && s'.plugins[p] == s.plugins[p] && Waited(s', p)
  {
    WaitedStays(s, l, p);
    WaitedHasDrained(s, p);
    DrainedIsFrozen(s, p, l);
  }

  /** From the moment Shutdown's Wait returns, and in every continuation of the run, the instance has
      no task, no outstanding lease and no busy conversation, and it never changes again. */
  lemma AfterWaitNothingIsLeased(labels: seq<Label>, more: seq<Label>, p: nat)
    requires After(labels).Some? && p < |After(labels).value.plugins| && Waited(After(labels).value, p)
    requires After(labels + more).Some?
    ensures var s, later := After(labels).value, After(labels + more).value;
            && p < |later.plugins| && later.plugins[p] == s.plugins[p] && Waited(later, p)
            && Live(later.threads, p) == {}
            && (forall i :: !Open(later.plugins[p].sessions.leases, i))
            && NothingBusy(later.plugins[p].sessions)
  {
    AfterWaitNothingChanges(After(labels).value, labels, more, p);
    EveryRunKeepsInv(labels + more);
    WaitedHasDrained(After(labels + more).value, p);
    DrainedIsIdle(After(labels + more).value, p);
  }

  lemma DrainedIsFrozen(s: State, p: nat, l: Label)
    requires Inv(s) && p < |s.plugins| && s.plugins[p].stopping && s.plugins[p].tasks == 0 && s.adapter != Stopping(p)
    requires Step(s, l).Some?
    ensures p < |Step(s, l).value.plugins| && Step(s, l).value.plugins[p] == s.plugins[p]
  {
    if !OfAdapter(l) && !l.Fetch? {
      var t := l.t;
      if s.threads[t].Task? { LiveIsActive(s, t); assert s.threads[t].plugin != p; }
    }
  }

  /** Each outstanding lease has exactly one holder, a registered task of its own plugin; and a
      conversation is busy exactly while some outstanding lease is on it. */
  lemma LeaseHasOneOwner(labels: seq<Label>, p: nat, i: nat)
    requires After(labels).Some? && p < |After(labels).value.plugins|
    requires Open(After(labels).value.plugins[p].sessions.leases, i)
    ensures var s := After(labels).value;
            exists t :: Owns(s.threads, t, p, i) && t in Live(s.threads, p)
                     && forall u :: Owns(s.threads, u, p, i) ==> u == t
    ensures var store := After(labels).value.plugins[p].sessions;
            Backed(View(store.rows), store.leases[i])
  {
    EveryRunKeepsInv(labels);
    var s := After(labels).value;
    assert HasOwner(s.threads, p, i);
    var t :| Owns(s.threads, t, p, i);
    assert t in Live(s.threads, p);
  }

  // ---------- released exactly once ----------

  /** This step is the release of lease i of plugin p. */
  predicate Releases(s: State, l: Label, p: nat, i: nat) {
    l.Release? && Owns(s.threads, l.t, p, i) && s.threads[l.t].Task? && s.threads[l.t].phase.Finishing?
  }

  /** How many steps of the run released lease i of plugin p. */
  function ReleaseCount(labels: seq<Label>, p: nat, i: nat): nat
    requires After(labels).Some?
  {
    if labels == [] then 0
    else
      var before := labels[..|labels| - 1];
      ReleaseCount(before, p, i) + if Releases(After(before).value, labels[|labels| - 1], p, i) then 1 else 0
  }

  predicate Spent(s: State, p: nat, i: nat) {
    p < |s.plugins| && i < |s.plugins[p].sessions.leases| && s.plugins[p].sessions.leases[i].spent
  }

  lemma ReleaseSpends(s: State, l: Label, p: nat, i: nat)
    requires Inv(s) && Step(s, l).Some?
    ensures Releases(s, l, p, i) ==> !Spent(s, p, i)
    ensures Spent(Step(s, l).value, p, i) <==> Spent(s, p, i) || Releases(s, l, p, i)
  {
    if OfAdapter(l) {
      AdapterSpendsNothing(s, l, p, i);
    } else if !l.Fetch? {
      ThreadSpends(s, l, p, i);
    }
  }

  lemma AdapterSpendsNothing(s: State, l: Label, p: nat, i: nat)
    requires Inv(s) && OfAdapter(l) && AdapterStep(s, l).Some?
    ensures Spent(AdapterStep(s, l).value, p, i) <==> Spent(s, p, i)
  {
  }

  lemma ThreadSpends(s: State, l: Label, p: nat, i: nat)
    requires Inv(s) && !OfAdapter(l) && !l.Fetch? && Step(s, l).Some?
    ensures Releases(s, l, p, i) ==> !Spent(s, p, i)
    ensures Spent(Step(s, l).value, p, i) <==> Spent(s, p, i) || Releases(s, l, p, i)
  {
    if l.Release? {
      ReleaseSpendsOne(s, l, p, i);
    } else if l.Acquire? {
      AcquireSpendsNothing(s, l, p, i);
    } else {
      OthersSpendNothing(s, l, p, i);
    }
  }

  lemma ReleaseSpendsOne(s: State, l: Label, p: nat, i: nat)
    requires Inv(s) && l.Release? && Step(s, l).Some?
    ensures Releases(s, l, p, i) ==> !Spent(s, p, i)
    ensures Spent(Step(s, l).value, p, i) <==> Spent(s, p, i) || Releases(s, l, p, i)
  {
    var th := s.threads[l.t];
    var lease := th.phase.lease;
    if lease.Some? {
      assert Owns(s.threads, l.t, th.plugin, lease.value);
      ReturnSpends(s.plugins[th.plugin].sessions, lease.value, l.at);
    }
  }

  lemma ReturnSpends(store: Store, i: nat, at: int)
    requires i < |store.leases|
    ensures var leases := Return(store, i, at).leases;
            |leases| == |store.leases| && leases[i].spent
            && forall j :: 0 <= j < |leases| && j != i ==> leases[j] == store.leases[j]
  {
  }

  lemma AcquireSpendsNothing(s: State, l: Label, p: nat, i: nat)
    requires Inv(s) && l.Acquire? && Step(s, l).Some?
    ensures Spent(Step(s, l).value, p, i) <==> Spent(s, p, i)
  {
    var t := l.t;
    if s.threads[t].Task? && s.threads[t].phase.Working? {
      TakeLeases(s.plugins[s.threads[t].plugin].sessions, SESSIONS, l.key, l.now, l.uuid);
    }
  }

  lemma OthersSpendNothing(s: State, l: Label, p: nat, i: nat)
    requires !OfAdapter(l) && !l.Fetch? && !l.Release? && !l.Acquire? && Step(s, l).Some?
    ensures Spent(Step(s, l).value, p, i) <==> Spent(s, p, i)
  {
  }

  /** Every lease is released at most once in any run, exactly once when it is spent; and no task is
      done while it still has a lease, so the one release comes before that task's done. */
  lemma {:induction false} LeaseReleasedExactlyOnce(labels: seq<Label>, p: nat, i: nat)
    requires After(labels).Some?
    ensures ReleaseCount(labels, p, i) == if Spent(After(labels).value, p, i) then 1 else 0
  {
    if labels != [] {
      var before := labels[..|labels| - 1];
      LeaseReleasedExactlyOnce(before, p, i);
      EveryRunKeepsInv(before);
      ReleaseSpends(After(before).value, labels[|labels| - 1], p, i);
    }
  }

  /** Once Wait has returned for an instance, every lease it ever granted has been released exactly
      once. */
  lemma ShutdownReleasedEverything(labels: seq<Label>, p: nat, i: nat)
    requires After(labels).Some? && p < |After(labels).value.plugins| && Waited(After(labels).value, p)
    requires i < |After(labels).value.plugins[p].sessions.leases|
    ensures ReleaseCount(labels, p, i) == 1
  {
    assert labels + [] == labels;
    AfterWaitNothingIsLeased(labels, [], p);
    LeaseReleasedExactlyOnce(labels, p, i);
    assert !Open(After(labels).value.plugins[p].sessions.leases, i);
  }
}
