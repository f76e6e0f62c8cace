/** What the task lifecycle can do: from the states its runs reach, a conversation is leased, a stream
    takes the turn over and reaches the host, and a shutdown comes to its end. */
module LifecycleProgress {
  import opened Wrappers
  import opened Sessions
  import opened Leases
  import opened Lifecycle
  import opened LifecycleSafety
  import Conversations

  // ---------- continuing a run ----------

  /** The state n steps of `run` lead to from s, None when some step is not possible. */
  function Onward(s: State, run: seq<Label>, n: nat): Option<State>
    requires n <= |run|
  {
    if n == 0 then Some(s)
    else
      var before := Onward(s, run, n - 1);
      if before.None? then None else Step(before.value, run[n - 1])
  }

  lemma OneOnward(s: State, run: seq<Label>, n: nat, d: State, r: State)
    requires n < |run| && Onward(s, run, n) == Some(d) && Step(d, run[n]) == Some(r)
    ensures Onward(s, run, n + 1) == Some(r)
  {
  }

  lemma {:induction false} AfterOnward(labels: seq<Label>, run: seq<Label>, n: nat)
    requires After(labels).Some? && n <= |run|
    ensures After(labels + run[..n]) == Onward(After(labels).value, run, n)
  {
    if n == 0 {
      assert labels + run[..0] == labels;
    } else {
      AfterOnward(labels, run, n - 1);
      assert labels + run[..n] == (labels + run[..n - 1]) + [run[n - 1]];
      assert (labels + run[..n])[..|labels| + n - 1] == labels + run[..n - 1];
    }
  }

  lemma OnwardKeepsInv(labels: seq<Label>, run: seq<Label>, n: nat)
    requires After(labels).Some? && n <= |run| && Onward(After(labels).value, run, n).Some?
    ensures LifecycleSafety.Inv(Onward(After(labels).value, run, n).value)
  {
    AfterOnward(labels, run, n);
    EveryRunKeepsInv(labels + run[..n]);
  }

  // ---------- a stream ----------

  /** The turn of task t goes to a stream task, which sends one frame, closes, releases and is done. */
  function StreamRun(t: nat, child: nat, at: int): (run: seq<Label>)
    ensures |run| == 8
  {
    [BeginSibling(t, child), Spawn(t), CallHost(child, false), HostReturns(child),
     CallHost(child, true), HostReturns(child), Release(child, at), Done(child)]
  }

  /** The run of a stream has come n steps far; `count` is the task counter while the stream is
      registered. */
  ghost predicate StreamAt(r: State, t: nat, child: nat, p: nat, lease: Option<nat>, n: nat, count: int) {
    && t in r.threads && r.threads[t].Task? && r.threads[t].plugin == p < |r.plugins|
    && r.host == Some(r.plugins[p].host)
    && r.plugins[p].tasks == (if n < 8 then count else count - 1)
    && (n < 8 ==> child in r.threads && r.threads[child].Task? && r.threads[child].plugin == p)
    && (n == 8 ==> child !in r.threads)
    && (n == 1 ==> LeaseOf(r.threads[t]) == lease)
    && (n > 1 ==> r.threads[t].phase == Returning)
    && (2 <= n < 7 ==> LeaseOf(r.threads[child]) == lease)
    && (n == 3 ==> r.threads[child].phase == Calling(lease, false))
    && (n == 5 ==> r.threads[child].phase == Calling(lease, true))
    && (n >= 7 && lease.Some? ==> Spent(r, p, lease.value))
  }

  function ChildPhase(t: nat, lease: Option<nat>, n: nat): Phase
    requires 1 <= n < 7
  {
    if n == 1 then Reserved(t)
    else if n == 3 then Calling(lease, false)
    else if n == 5 then Calling(lease, true)
    else if n == 6 then Finishing(lease)
    else Relaying(lease)
  }

  /** State `o`, in which task t opens a stream, after n steps of the run. */
  function During(o: State, t: nat, child: nat, p: nat, lease: Option<nat>, n: nat): State
    requires 1 <= n < 7
  {
    if n == 1 then o
    else o.(threads := o.threads[t := Task(p, Returning)][child := Task(p, ChildPhase(t, lease, n))])
  }

  predicate Opens(o: State, t: nat, child: nat, p: nat, lease: Option<nat>) {
    && t in o.threads && o.threads[t] == Task(p, Opening(lease, child)) && p < |o.plugins|
    && child in o.threads && o.threads[child] == Task(p, Reserved(t)) && child != t
  }

  lemma DuringStep(o: State, t: nat, child: nat, p: nat, lease: Option<nat>, at: int, n: nat)
    requires Opens(o, t, child, p, lease) && 1 <= n < 6
    ensures Step(During(o, t, child, p, lease, n), StreamRun(t, child, at)[n])
            == Some(During(o, t, child, p, lease, n + 1))
  {
    var d := During(o, t, child, p, lease, n);
    var d' := During(o, t, child, p, lease, n + 1);
    assert o.threads[t := Task(p, Returning)][child := Task(p, ChildPhase(t, lease, n + 1))] == d'.threads;
    if n > 1 {
      assert d.threads[child := Task(p, ChildPhase(t, lease, n + 1))] == d'.threads;
    }
  }

  lemma {:induction false} ReachDuring(s: State, o: State, t: nat, child: nat, p: nat, lease: Option<nat>, at: int,
                                       n: nat)
    requires Opens(o, t, child, p, lease) && 1 <= n < 7
    requires Onward(s, StreamRun(t, child, at), 1) == Some(o)
    ensures Onward(s, StreamRun(t, child, at), n) == Some(During(o, t, child, p, lease, n))
  {
    if n > 1 {
      ReachDuring(s, o, t, child, p, lease, at, n - 1);
      DuringStep(o, t, child, p, lease, at, n - 1);
    }
  }

  /** The two states agree on the hosts and counters of their instances. */
  predicate SamePlugins(s: State, r: State) {
    && s.host == r.host && |s.plugins| == |r.plugins|
    && forall q :: 0 <= q < |s.plugins| ==>
         s.plugins[q].host == r.plugins[q].host && s.plugins[q].tasks == r.plugins[q].tasks
  }

  /** A task at the end of its turn releases what it holds. */
  lemma ReleaseGoes(s: State, u: nat, p: nat, lease: Option<nat>, at: int)
    requires LifecycleSafety.Inv(s) && u in s.threads && s.threads[u] == Task(p, Finishing(lease))
    ensures var r := Step(s, Release(u, at));
            && r.Some? && r.value.threads == s.threads[u := Task(p, Returning)] && SamePlugins(s, r.value)
            && r.value.adapter == s.adapter && r.value.active == s.active
            && (lease.Some? ==> Spent(r.value, p, lease.value))
  {
    if lease.Some? {
      assert Owns(s.threads, u, p, lease.value);
      LeaseGoes(s, u, p, lease.value, at);
    } else {
      EmptyHandGoes(s, u, p, at);
    }
  }

  lemma LeaseGoes(s: State, u: nat, p: nat, i: nat, at: int)
    requires u in s.threads && s.threads[u] == Task(p, Finishing(Some(i)))
    requires p < |s.plugins| && i < |s.plugins[p].sessions.leases|
    ensures Step(s, Release(u, at)) == Some(GiveBack(s, u, p, i, at))
    ensures SamePlugins(s, GiveBack(s, u, p, i, at)) && Spent(GiveBack(s, u, p, i, at), p, i)
  {
    ReturnSpends(s.plugins[p].sessions, i, at);
  }

  lemma EmptyHandGoes(s: State, u: nat, p: nat, at: int)
    requires u in s.threads && s.threads[u] == Task(p, Finishing(None)) && p < |s.plugins|
    ensures Step(s, Release(u, at)) == Some(SetPhase(s, u, Returning))
  {
  }

  /** And then it is done. */
  lemma DoneGoes(s: State, u: nat, p: nat)
    requires u in s.threads && s.threads[u] == Task(p, Returning) && p < |s.plugins|
    ensures Step(s, Done(u)) == Some(AddTasks(s.(threads := s.threads - {u}), p, -1))
  {
  }

  lemma ReleaseFrom(d: State, t: nat, child: nat, p: nat, lease: Option<nat>, at: int, count: int) returns (r: State)
    requires LifecycleSafety.Inv(d)
    requires StreamAt(d, t, child, p, lease, 6, count) && d.threads[child] == Task(p, Finishing(lease)) && child != t
    ensures Step(d, Release(child, at)) == Some(r) && StreamAt(r, t, child, p, lease, 7, count)
    ensures r.threads == d.threads[child := Task(p, Returning)]
  {
    ReleaseGoes(d, child, p, lease, at);
    r := Step(d, Release(child, at)).value;
    AtReleased(d, r, t, child, p, lease, count);
  }

  lemma AtReleased(d: State, r: State, t: nat, child: nat, p: nat, lease: Option<nat>, count: int)
    requires StreamAt(d, t, child, p, lease, 6, count) && child != t && SamePlugins(d, r)
    requires r.threads == d.threads[child := Task(p, Returning)]
    requires lease.Some? ==> Spent(r, p, lease.value)
    ensures StreamAt(r, t, child, p, lease, 7, count)
  {
    assert r.threads[t] == d.threads[t];
  }

  lemma DoneFrom(d: State, t: nat, child: nat, p: nat, lease: Option<nat>, count: int) returns (r: State)
    requires StreamAt(d, t, child, p, lease, 7, count) && d.threads[child] == Task(p, Returning) && child != t
    ensures Step(d, Done(child)) == Some(r) && StreamAt(r, t, child, p, lease, 8, count)
    ensures r.threads == d.threads - {child}
  {
    DoneGoes(d, child, p);
    r := AddTasks(d.(threads := d.threads - {child}), p, -1);
    AtDone(d, t, child, p, lease, count);
  }

  lemma AtDone(d: State, t: nat, child: nat, p: nat, lease: Option<nat>, count: int)
    requires StreamAt(d, t, child, p, lease, 7, count) && child != t
    ensures StreamAt(AddTasks(d.(threads := d.threads - {child}), p, -1), t, child, p, lease, 8, count)
  {
  }

  /** A turn whose stream is being opened, by an instance that stops or not: once the stream answers,
      its task gets the lease, enters the host for a frame and for the close, releases and is done. */
  lemma OpenedStreamGoesThrough(labels: seq<Label>, t: nat, child: nat, at: int, n: nat)
    requires After(labels).Some? && 1 <= n <= 8 && Onward(After(labels).value, StreamRun(t, child, at), 1).Some?
    requires var o := Onward(After(labels).value, StreamRun(t, child, at), 1).value;
             t in o.threads && o.threads[t].Task? && o.threads[t].phase.Opening? && o.threads[t].phase.child == child
    ensures var o := Onward(After(labels).value, StreamRun(t, child, at), 1).value;
            var th := o.threads[t];
            var r := Onward(After(labels).value, StreamRun(t, child, at), n);
            && th.plugin < |o.plugins| && r.Some?
            && StreamAt(r.value, t, child, th.plugin, th.phase.lease, n, o.plugins[th.plugin].tasks)
            && r.value.threads - {t, child} == o.threads - {t, child}
  {
    var s, run := After(labels).value, StreamRun(t, child, at);
    var o := Onward(s, run, 1).value;
    var p, lease := o.threads[t].plugin, o.threads[t].phase.lease;
    OnwardKeepsInv(labels, run, 1);
    LiveIsActive(o, t);
    assert Opens(o, t, child, p, lease);
    var m := if n < 7 then n else 6;
    ReachOpened(s, o, t, child, p, lease, at, m);
    if n >= 7 {
      OnwardKeepsInv(labels, run, m);
      var d := During(o, t, child, p, lease, m);
      var r := ReachEnd(s, run, d, t, child, p, lease, at, o.plugins[p].tasks, m, n);
    }
  }

  lemma ReachOpened(s: State, o: State, t: nat, child: nat, p: nat, lease: Option<nat>, at: int, n: nat)
    requires Opens(o, t, child, p, lease) && o.host == Some(o.plugins[p].host) && 1 <= n < 7
    requires Onward(s, StreamRun(t, child, at), 1) == Some(o)
    ensures var d := During(o, t, child, p, lease, n);
            && Onward(s, StreamRun(t, child, at), n) == Some(d)
            && StreamAt(d, t, child, p, lease, n, o.plugins[p].tasks)
            && d.threads - {t, child} == o.threads - {t, child}
  {
    ReachDuring(s, o, t, child, p, lease, at, n);
    assert During(o, t, child, p, lease, n).threads - {t, child} == o.threads - {t, child};
  }

  /** The last two steps. */
  lemma LastSteps(d: State, t: nat, child: nat, p: nat, lease: Option<nat>, at: int, count: int)
    returns (r7: State, r8: State)
    requires LifecycleSafety.Inv(d)
    requires StreamAt(d, t, child, p, lease, 6, count) && d.threads[child] == Task(p, Finishing(lease)) && child != t
    ensures Step(d, Release(child, at)) == Some(r7) && StreamAt(r7, t, child, p, lease, 7, count)
    ensures Step(r7, Done(child)) == Some(r8) && StreamAt(r8, t, child, p, lease, 8, count)
    ensures r7.threads - {t, child} == d.threads - {t, child}
    ensures r8.threads - {t, child} == d.threads - {t, child}
  {
    r7 := ReleaseFrom(d, t, child, p, lease, at, count);
    r8 := DoneFrom(r7, t, child, p, lease, count);
    assert r7.threads - {t, child} == d.threads - {t, child};
    assert r8.threads - {t, child} == r7.threads - {t, child};
  }

  lemma LastOnward(s: State, run: seq<Label>, n: nat, d: State, r: State, r': State)
    requires n + 2 == |run| && Onward(s, run, n) == Some(d)
    requires Step(d, run[n]) == Some(r) && Step(r, run[n + 1]) == Some(r')
    ensures Onward(s, run, n + 1) == Some(r) && Onward(s, run, n + 2) == Some(r')
  {
    OneOnward(s, run, n, d, r);
    OneOnward(s, run, n + 1, r, r');
  }

  lemma ReachEnd(s: State, run: seq<Label>, d: State, t: nat, child: nat, p: nat, lease: Option<nat>, at: int,
                 count: int, six: nat, n: nat)
    returns (r: State)
    requires |run| == six + 2 && run[six] == Release(child, at) && run[six + 1] == Done(child) && six < n <= six + 2
    requires Onward(s, run, six) == Some(d) && LifecycleSafety.Inv(d)
    requires StreamAt(d, t, child, p, lease, 6, count) && d.threads[child] == Task(p, Finishing(lease)) && child != t
    ensures Onward(s, run, n) == Some(r) && StreamAt(r, t, child, p, lease, 6 + n - six, count)
    ensures r.threads - {t, child} == d.threads - {t, child}
  {
    var r7, r8 := LastSteps(d, t, child, p, lease, at, count);
    LastOnward(s, run, six, d, r7, r8);
    r := if n == six + 1 then r7 else r8;
  }

  /** In every reachable state a prepared turn of an instance that is not stopping can go to a stream:
      each of the eight steps is possible after those before it. The stream is one more task from the
      first step to the last, has the turn's lease from the second to the release, is inside the host
      under its own instance's pointer twice, and leaves the counter as it was and the lease spent. */
  lemma StreamGoesThrough(labels: seq<Label>, t: nat, child: nat, at: int, n: nat)
    requires After(labels).Some? && 1 <= n <= 8
    requires var s := After(labels).value;
             && t in s.threads && s.threads[t].Task? && s.threads[t].phase.Prepared? && child !in s.threads
             && s.threads[t].plugin < |s.plugins| && !s.plugins[s.threads[t].plugin].stopping
    ensures var s := After(labels).value;
            var p := s.threads[t].plugin;
            var r := After(labels + StreamRun(t, child, at)[..n]);
            && r.Some?
            && StreamAt(r.value, t, child, p, s.threads[t].phase.lease, n, s.plugins[p].tasks + 1)
            && r.value.threads - {t, child} == s.threads - {t}
  {
    var s := After(labels).value;
    var run := StreamRun(t, child, at);
    SiblingIsAdmitted(s, t, child, at);
    OpenedStreamGoesThrough(labels, t, child, at, n);
    AfterOnward(labels, run, n);
  }

  lemma SiblingIsAdmitted(s: State, t: nat, child: nat, at: int)
    requires t in s.threads && s.threads[t].Task? && s.threads[t].phase.Prepared? && child !in s.threads
    requires s.threads[t].plugin < |s.plugins| && !s.plugins[s.threads[t].plugin].stopping
    ensures var o := Onward(s, StreamRun(t, child, at), 1);
            var p, lease := s.threads[t].plugin, s.threads[t].phase.lease;
            && o.Some? && t in o.value.threads && o.value.threads[t] == Task(p, Opening(lease, child))
            && |o.value.plugins| == |s.plugins| && o.value.plugins[p].tasks == s.plugins[p].tasks + 1
            && o.value.threads - {t, child} == s.threads - {t}
  {
    var p, lease := s.threads[t].plugin, s.threads[t].phase.lease;
    var m := s.threads[t := Task(p, Opening(lease, child))][child := Task(p, Reserved(t))];
    var o := AddTasks(s.(threads := m), p, 1);
    assert Step(s, BeginSibling(t, child)) == Some(o);
    OneOnward(s, StreamRun(t, child, at), 0, s, o);
    assert m - {t, child} == s.threads - {t};
  }

  // ---------- turns that do not become a stream ----------

  /** A call without an identity has a turn without a lease; a turn of an instance that stops gets no
      stream; an upstream that does not open gives the turn back to the call and takes the stream's
      task away. */
  lemma OtherTurnSteps(labels: seq<Label>, t: nat, child: nat)
    requires After(labels).Some? && t in After(labels).value.threads && After(labels).value.threads[t].Task?
    ensures var s := After(labels).value;
            var p, ph := s.threads[t].plugin, s.threads[t].phase;
            p < |s.plugins|
            && (ph.Working? ==>
                 Step(s, NoIdentity(t)) == Some(s.(threads := s.threads[t := Task(p, Prepared(None))])))
            && (ph.Prepared? && child !in s.threads && s.plugins[p].stopping ==>
                 Step(s, BeginSibling(t, child)) == Some(s.(threads := s.threads[t := Task(p, Finishing(ph.lease))])))
            && (ph.Opening? ==>
                 var r := Step(s, OpenFailed(t));
                 && r.Some? && r.value.threads == s.threads[t := Task(p, Finishing(ph.lease))] - {ph.child}
                 && p < |r.value.plugins| && s.plugins[p].tasks == r.value.plugins[p].tasks + 1)
  {
    EveryRunKeepsInv(labels);
  }

  // ---------- every task can end ----------

  /** Steps left to a task that goes straight to its end. */
  function StepsLeft(ph: Phase): nat {
    match ph
    case Returning => 1
    case Working => 2
    case Finishing(_) => 2
    case Calling(_, closing) => if closing then 3 else 5
    case Relaying(_) => 4
    case Prepared(_) => 3
    case Opening(_, _) => 3
    case Reserved(_) => 0
  }

  /** The next step of a task that goes straight to its end. */
  function Leave(t: nat, ph: Phase): Label
    requires !ph.Reserved?
  {
    match ph
    case Returning => Done(t)
    case Working => NoTurn(t)
    case Finishing(_) => Release(t, 0)
    case Calling(_, _) => HostReturns(t)
    case Relaying(_) => CallHost(t, true)
    case Prepared(_) => FinishTurn(t)
    case Opening(_, _) => OpenFailed(t)
  }

  /** Some thread is gone, or task t is nearer to its end. */
  predicate Nearer(m: map<nat, Thread>, m': map<nat, Thread>, t: nat)
    requires t in m && m[t].Task?
  {
    || |m'| < |m|
    || (|m'| == |m| && t in m' && m'[t].Task? && !m'[t].phase.Reserved?
       && StepsLeft(m'[t].phase) < StepsLeft(m[t].phase))
  }

  lemma NearerInPlace(m: map<nat, Thread>, t: nat, ph: Phase)
    requires t in m && m[t].Task? && !ph.Reserved? && StepsLeft(ph) < StepsLeft(m[t].phase)
    ensures Nearer(m, m[t := Task(m[t].plugin, ph)], t)
  {
    SameSize(m, t, Task(m[t].plugin, ph));
  }

  /** The step is possible and takes the task nearer to its end. */
  lemma LeaveGoes(s: State, t: nat)
    requires LifecycleSafety.Inv(s) && t in s.threads && s.threads[t].Task? && !s.threads[t].phase.Reserved?
    ensures var l := Leave(t, s.threads[t].phase);
            !OfAdapter(l) && !l.Fetch? && Step(s, l).Some? && Nearer(s.threads, Step(s, l).value.threads, t)
  {
    var p, ph := s.threads[t].plugin, s.threads[t].phase;
    if ph.Finishing? || ph.Returning? {
      EndGoes(s, t);
    } else if ph.Opening? {
      OpenFailureGoes(s, t, p, ph.lease, ph.child);
    } else {
      LeaveInPlace(s, t);
      NearerInPlace(s.threads, t, NextPhase(ph));
    }
  }

  lemma EndGoes(s: State, t: nat)
    requires LifecycleSafety.Inv(s) && t in s.threads && s.threads[t].Task?
    requires s.threads[t].phase.Finishing? || s.threads[t].phase.Returning?
    ensures var l := Leave(t, s.threads[t].phase);
            Step(s, l).Some? && Nearer(s.threads, Step(s, l).value.threads, t)
  {
    var p, ph := s.threads[t].plugin, s.threads[t].phase;
    if ph.Finishing? {
      ReleaseGoes(s, t, p, ph.lease, 0);
      NearerInPlace(s.threads, t, Returning);
    } else {
      DoneGoes(s, t, p);
      OneLess(s.threads, t);
    }
  }

  lemma OpenFailureGoes(s: State, t: nat, p: nat, lease: Option<nat>, c: nat)
    requires Linked(s) && t in s.threads && s.threads[t] == Task(p, Opening(lease, c))
    ensures Step(s, OpenFailed(t)).Some?
    ensures Nearer(s.threads, Step(s, OpenFailed(t)).value.threads, t)
  {
    SameSize(s.threads, t, Task(p, Finishing(lease)));
    OneLess(s.threads[t := Task(p, Finishing(lease))], c);
  }

  function NextPhase(ph: Phase): Phase {
    match ph
    case Prepared(lease) => Finishing(lease)
    case Relaying(lease) => Calling(lease, true)
    case Calling(lease, closing) => if closing then Finishing(lease) else Relaying(lease)
    case _ => Returning
  }

  lemma LeaveInPlace(s: State, t: nat)
    requires Linked(s) && t in s.threads && s.threads[t].Task?
    requires var ph := s.threads[t].phase; ph.Working? || ph.Prepared? || ph.Relaying? || ph.Calling?
    ensures var ph := s.threads[t].phase;
            Step(s, Leave(t, ph)) == Some(SetPhase(s, t, NextPhase(ph)))
  {
    var ph := s.threads[t].phase;
    match ph
    case Working => assert Step(s, NoTurn(t)) == Some(SetPhase(s, t, Returning));
    case Prepared(lease) => assert Step(s, FinishTurn(t)) == Some(SetPhase(s, t, Finishing(lease)));
    case Relaying(lease) => assert Step(s, CallHost(t, true)) == Some(SetPhase(s, t, Calling(lease, true)));
    case Calling(lease, closing) => assert Step(s, HostReturns(t)) == Some(SetPhase(s, t, NextPhase(ph)));
  }

  lemma SameSize(m: map<nat, Thread>, t: nat, th: Thread)
    requires t in m
    ensures |m[t := th]| == |m|
  {
    assert m[t := th].Keys == m.Keys;
    assert |m.Keys| == |m|;
    assert |m[t := th].Keys| == |m[t := th]|;
  }

  lemma OneLess(m: map<nat, Thread>, t: nat)
    requires t in m
    ensures |m - {t}| < |m|
  {
    assert (m - {t}).Keys == m.Keys - {t};
    assert |m.Keys| == |m|;
    assert |(m - {t}).Keys| == |m - {t}|;
  }

  /** An instance with a positive counter has a task that is not waiting for its parent. */
  lemma SomeoneCanLeave(s: State, p: nat) returns (t: nat)
    requires LifecycleSafety.Inv(s) && p < |s.plugins| && s.plugins[p].tasks != 0
    ensures t in s.threads && s.threads[t].Task? && !s.threads[t].phase.Reserved?
  {
    assert |LifecycleSafety.Live(s.threads, p)| != 0;
    t :| t in LifecycleSafety.Live(s.threads, p);
    if s.threads[t].phase.Reserved? { t := s.threads[t].phase.parent; }
  }

  /** Instance p waits for its tasks, and t is one that can go. */
  predicate Waiting(s: State, p: nat, t: nat) {
    s.adapter == Draining(p) && p < |s.plugins| && t in s.threads && s.threads[t].Task? && !s.threads[t].phase.Reserved?
  }

  /** One step towards the end of task t, and whom to let go next. */
  lemma LeaveOnce(labels: seq<Label>, s: State, p: nat, t: nat) returns (r: State, u: nat)
    requires After(labels) == Some(s) && Waiting(s, p, t)
    ensures After(labels + [Leave(t, s.threads[t].phase)]) == Some(r)
    ensures Drainable(r, p) || Waiting(r, p, u)
    ensures Drainable(r, p) || |r.threads| < |s.threads|
            || (|r.threads| == |s.threads| && StepsLeft(r.threads[u].phase) < StepsLeft(s.threads[t].phase))
  {
    EveryRunKeepsInv(labels);
    var l := Leave(t, s.threads[t].phase);
    LeaveGoes(s, t);
    assert (labels + [l])[..|labels|] == labels;
    ThreadLeavesAdapter(s, l);
    r := Step(s, l).value;
    EveryRunKeepsInv(labels + [l]);
    u := t;
    if |r.threads| < |s.threads| && r.plugins[p].tasks != 0 { u := SomeoneCanLeave(r, p); }
  }

  /** An instance that waits for its tasks can be left by all of them. */
  lemma {:induction false} DrainFrom(labels: seq<Label>, s: State, p: nat, t: nat) returns (more: seq<Label>, r: State)
    requires After(labels) == Some(s) && Waiting(s, p, t)
    ensures After(labels + more) == Some(r) && Drainable(r, p)
    decreases |s.threads|, StepsLeft(s.threads[t].phase)
  {
    var l := Leave(t, s.threads[t].phase);
    var next, u := LeaveOnce(labels, s, p, t);
    if Drainable(next, p) { return [l], next; }
    var rest;
    rest, r := DrainFrom(labels + [l], next, p, u);
    more := [l] + rest;
    Regroup(labels, [l], rest);
  }

  lemma Regroup(labels: seq<Label>, first: seq<Label>, rest: seq<Label>)
    ensures labels + (first + rest) == (labels + first) + rest
  {
  }

  predicate Drainable(s: State, p: nat) {
    s.adapter == Draining(p) && p < |s.plugins| && s.plugins[p].tasks == 0
  }

  // ---------- a shutdown can end ----------

  /** Steps left to a shutdown whose tasks are done. */
  function ShutdownLeft(a: Adapter): nat {
    match a
    case Dropping(_) => 1
    case Clearing(_) => 2
    case Drained(_) => 3
    case Draining(_) => 4
    case Stopping(_) => 5
    case _ => 6
  }

  function NextOfShutdown(a: Adapter): Label {
    match a
    case Dropping(_) => DropActive
    case Clearing(_) => ClearHost
    case Drained(_) => LockState
    case Draining(_) => WaitDone
    case Stopping(_) => StopAdmission
    case _ => ShutRead
  }

  predicate Ended(s: State) {
    s.active.None? && s.host.None? && s.adapter.Free?
  }

  lemma ShutdownStep(s: State)
    requires AdapterOk(s) && s.active.Some? && (s.adapter.Draining? ==> Drainable(s, s.adapter.p))
    ensures var r := Step(s, NextOfShutdown(s.adapter));
            r.Some?
            && (Ended(r.value)
                || (r.value.active.Some? && ShutdownLeft(r.value.adapter) < ShutdownLeft(s.adapter)))
  {
  }

  /** The tasks of an instance that waits for them, if any, can go. */
  lemma DrainIfNeeded(labels: seq<Label>, s: State) returns (more: seq<Label>, r: State)
    requires After(labels) == Some(s) && s.active.Some?
    ensures After(labels + more) == Some(r) && AdapterOk(r) && r.active.Some?
    ensures ShutdownLeft(r.adapter) == ShutdownLeft(s.adapter)
    ensures r.adapter.Draining? ==> Drainable(r, r.adapter.p)
  {
    EveryRunKeepsInv(labels);
    if s.adapter.Draining? && s.plugins[s.adapter.p].tasks != 0 {
      var t := SomeoneCanLeave(s, s.adapter.p);
      more, r := DrainFrom(labels, s, s.adapter.p, t);
      EveryRunKeepsInv(labels + more);
    } else {
      more, r := [], s;
      assert labels + more == labels;
    }
  }

  lemma {:induction false} EndShutdown(labels: seq<Label>, s: State) returns (more: seq<Label>, r: State)
    requires After(labels) == Some(s) && s.active.Some?
    ensures After(labels + more) == Some(r) && Ended(r)
    decreases ShutdownLeft(s.adapter)
  {
    var first, s' := DrainIfNeeded(labels, s);
    var l := NextOfShutdown(s'.adapter);
    ShutdownStep(s');
    var s'' := Step(s', l).value;
    Append(labels + first, s', l, s'');
    Regroup(labels, first, [l]);
    more, r := first + [l], s'';
    if !Ended(s'') {
      var rest;
      rest, r := EndShutdown(labels + (first + [l]), s'');
      more := (first + [l]) + rest;
      Regroup(labels, first + [l], rest);
    }
  }

  lemma Append(labels: seq<Label>, s: State, l: Label, r: State)
    requires After(labels) == Some(s) && Step(s, l) == Some(r)
    ensures After(labels + [l]) == Some(r)
  {
    assert (labels + [l])[..|labels|] == labels;
  }

  /** From every reachable state with an active instance, wherever its tasks stand and whether a
      shutdown has begun or not, some continuation brings the shutdown to its end: no active instance,
      no host pointer, the lifecycle lock free. */
  lemma ShutdownCanEnd(labels: seq<Label>)
    requires After(labels).Some? && After(labels).value.active.Some?
    ensures exists more: seq<Label> :: After(labels + more).Some? && Ended(After(labels + more).value)
  {
    var more, r := EndShutdown(labels, After(labels).value);
  }

  // ---------- initialisation, admission and leases ----------

  /** Initialize on a free adapter without an instance, step by step. */
  function InitRun(h: Host): (run: seq<Label>)
    ensures |run| == 3
  {
    [InitCheck(h), Install, Publish]
  }

  /** Initialize installs its host pointer and a fresh instance that serves under it; with an active
      instance it changes nothing. */
  lemma InitializeGoesThrough(labels: seq<Label>, h: Host)
    requires After(labels).Some? && After(labels).value.adapter.Free?
    ensures var s := After(labels).value;
            if s.active.Some? then Step(s, InitCheck(h)) == Some(s)
            else
              var r := After(labels + InitRun(h));
              && r.Some? && r.value.host == Some(h) && r.value.active == Some(|s.plugins|) && r.value.adapter.Free?
              && r.value.plugins == s.plugins + [Plugin(h, false, 0, EMPTY)] && r.value.threads == s.threads
  {
    var s := After(labels).value;
    if s.active.None? {
      var s1, s2, s3 := InitSteps(s, h);
      Append(labels, s, InitCheck(h), s1);
      Append(labels + [InitCheck(h)], s1, Install, s2);
      Append(labels + [InitCheck(h)] + [Install], s2, Publish, s3);
      InitRegroup(labels, h);
    }
  }

  lemma InitSteps(s: State, h: Host) returns (s1: State, s2: State, s3: State)
    requires s.adapter.Free? && s.active.None?
    ensures Step(s, InitCheck(h)) == Some(s1) && Step(s1, Install) == Some(s2) && Step(s2, Publish) == Some(s3)
    ensures s3 == s.(host := Some(h), active := Some(|s.plugins|), plugins := s.plugins + [Plugin(h, false, 0, EMPTY)])
  {
    s1 := s.(adapter := Installing(h));
    s2 := s1.(host := Some(h), adapter := Publishing(h));
    s3 := s2.(active := Some(|s.plugins|), plugins := s.plugins + [NewPlugin(h)], adapter := Free);
  }

  lemma InitRegroup(labels: seq<Label>, h: Host)
    ensures labels + [InitCheck(h)] + [Install] + [Publish] == labels + InitRun(h)
  {
  }

  /** A call that reads the active instance before it stops is admitted: one task more, at work. */
  lemma CallIsAdmitted(labels: seq<Label>, t: nat, p: nat)
    requires After(labels).Some? && After(labels).value.active == Some(p) && t !in After(labels).value.threads
    requires !StateLocked(After(labels).value.adapter) && p < |After(labels).value.plugins|
    ensures var s := After(labels).value;
            var fetched := After(labels + [Fetch(t)]);
            var begun := After(labels + [Fetch(t)] + [Begin(t)]);
            && fetched == Some(s.(threads := s.threads[t := Caller(p)])) && begun.Some?
            && (s.plugins[p].stopping ==> begun == Some(s))
            && (!s.plugins[p].stopping ==>
                 && begun.value.threads == s.threads[t := Task(p, Working)]
                 && |begun.value.plugins| == |s.plugins| && begun.value.plugins[p].tasks == s.plugins[p].tasks + 1
                 && begun.value.plugins[p].sessions == s.plugins[p].sessions)
  {
    var s := After(labels).value;
    var s1 := s.(threads := s.threads[t := Caller(p)]);
    Append(labels, s, Fetch(t), s1);
    var s2 := BeginCall(s1, t, p);
    Append(labels + [Fetch(t)], s1, Begin(t), s2);
    assert s1.threads - {t} == s.threads;
    assert s1.threads[t := Task(p, Working)] == s.threads[t := Task(p, Working)];
  }

  /** An admitted call that asks for a conversation gets a turn with a new outstanding lease on it
      exactly when no lease on it is outstanding and the store has room or an idle row; otherwise the
      call ends and no lease is made. */
  lemma AcquireMakesTurn(labels: seq<Label>, t: nat, p: nat, key: Key, now: int, uuid: string)
    requires After(labels).Some? && t in After(labels).value.threads
    requires After(labels).value.threads[t] == Task(p, Working) && p < |After(labels).value.plugins|
    ensures var s := After(labels).value;
            var was := s.plugins[p].sessions;
            var r := After(labels + [Acquire(t, key, now, uuid)]);
            var granted := !Leased(was.leases, key) && (|was.rows| < 4096 || exists x :: x in was.rows && !x.busy);
            var phase := if granted then Prepared(Some(|was.leases|)) else Returning;
            && r.Some? && r.value.threads == s.threads[t := Task(p, phase)]
            && p < |r.value.plugins|
            && var store := r.value.plugins[p].sessions;
               && (granted ==> Open(store.leases, |was.leases|) && store.leases[|was.leases|].key == key
                               && store.leases[..|was.leases|] == was.leases)
               && (!granted ==> store.leases == was.leases)
  {
    EveryRunKeepsInv(labels);
    var s := After(labels).value;
    var was := s.plugins[p].sessions;
    Conversations.GrantedExactly(was, SESSIONS, key, now, uuid);
    TakeLeases(was, SESSIONS, key, now, uuid);
    Append(labels, s, Acquire(t, key, now, uuid), AcquireLease(s, t, p, key, now, uuid));
  }
}
