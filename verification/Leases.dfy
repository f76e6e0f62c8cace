/** Leases on conversations: the store of go/session.go together with every release closure it has
    handed out. A closure is spent after its first call (sync.Once), so calling it again does
    nothing. */
module Leases {
  import opened Wrappers
  import opened Sessions

  datatype Lease = Lease(key: Key, id: string, spent: bool)
  datatype Store = Store(rows: seq<Row>, leases: seq<Lease>)

  const EMPTY := Store([], [])

  /** acquire: on success the new lease is the last of `leases`. */
  function Take(s: Store, lim: Limits, key: Key, now: int, uuid: string): (bool, Store) {
    var (got, rows) := AcquireRows(s.rows, lim, key, now, uuid);
    if got.None? then (false, s.(rows := rows))
    else (true, Store(rows, s.leases + [Lease(key, got.value, false)]))
  }

  /** Calling the release closure of lease `i`. */
  function Return(s: Store, i: nat, now: int): Store
    requires i < |s.leases|
  {
    if s.leases[i].spent then s
    else Store(ReleaseRows(s.rows, s.leases[i].key, now), s.leases[i := s.leases[i].(spent := true)])
  }

  predicate Open(leases: seq<Lease>, i: int) {
    0 <= i < |leases| && !leases[i].spent
  }

  /** Some outstanding lease is on this key. */
  ghost predicate Leased(leases: seq<Lease>, k: Key) {
    exists i :: Open(leases, i) && leases[i].key == k
  }

  /** The lease's conversation is cached, busy, and still has the id that was handed out. */
  ghost predicate Backed(m: map<Key, Row>, l: Lease) {
    l.key in m && m[l.key].busy && m[l.key].id == l.id
  }

  /** Outstanding leases and busy cells correspond one to one. */
  ghost predicate Matched(m: map<Key, Row>, leases: seq<Lease>) {
    && (forall i :: Open(leases, i) ==> Backed(m, leases[i]))
    && (forall i, j :: Open(leases, i) && Open(leases, j) && leases[i].key == leases[j].key ==> i == j)
    && (forall k :: k in m && m[k].busy ==> Leased(leases, k))
  }

  ghost predicate Inv(s: Store, capacity: nat) {
    UniqueKeys(s.rows) && |s.rows| <= capacity && Matched(View(s.rows), s.leases)
  }

  // ---------- what each operation does to busy cells, whatever the clock says ----------

  /** No busy cell is expired, evicted or replaced, and no other cell appears or changes. */
  ghost predicate KeepsBusy(m: map<Key, Row>, m': map<Key, Row>, but: set<Key>) {
    && (forall k :: k in m && m[k].busy ==> k in m' && m'[k] == m[k])
    && (forall k :: k in m' && k !in but ==> k in m && m'[k] == m[k])
  }

  /** A grant makes exactly `key`, which was not busy, busy under the id it returns. */
  ghost predicate Grants(m: map<Key, Row>, m': map<Key, Row>, key: Key, now: int, got: Option<string>) {
    match got
    case None => KeepsBusy(m, m', {})
    case Some(id) =>
      && KeepsBusy(m, m', {key})
      && (key in m ==> !m[key].busy)
      && key in m' && m'[key] == Row(key, id, now, true)
  }

  lemma ClaimGrants(s: seq<Row>, capacity: nat, key: Key, now: int, uuid: string)
    requires UniqueKeys(s)
    ensures var (got, after) := ClaimRows(s, capacity, key, now, uuid);
            Grants(View(s), View(after), key, now, got)
  {
    ViewFind(s, key);
    var i, v := Find(s, key), LastIdle(s);
    var r := Row(key, uuid, now, true);
    if i >= 0 {
      RewriteView(s, i, s[i].(busy := true, touched := now));
    } else if |s| < capacity {
      ViewCons(r, s);
    } else if v >= 0 {
      ViewAt(s, v);
      PushView(s, v, r);
    }
  }

  lemma ViewAt(s: seq<Row>, i: int)
    requires UniqueKeys(s) && 0 <= i < |s|
    ensures s[i].key in View(s) && View(s)[s[i].key] == s[i]
  {
    ViewFind(s, s[i].key);
  }

  lemma AcquireGrants(rows: seq<Row>, lim: Limits, key: Key, now: int, uuid: string)
    requires UniqueKeys(rows)
    ensures var (got, after) := AcquireRows(rows, lim, key, now, uuid);
            Grants(View(rows), View(after), key, now, got)
  {
    var s := Sweep(rows, now, lim.ttl);
    SweepKeeps(rows, now, lim.ttl);
    SweepView(rows, now, lim.ttl);
    ClaimGrants(s, lim.capacity, key, now, uuid);
  }

  // ---------- each operation keeps the correspondence ----------

  lemma GrantKeepsMatched(m: map<Key, Row>, m': map<Key, Row>, leases: seq<Lease>, key: Key, now: int, id: string)
    requires Matched(m, leases) && Grants(m, m', key, now, Some(id))
    ensures !Leased(leases, key)
    ensures Matched(m', leases + [Lease(key, id, false)])
  {
    var after := leases + [Lease(key, id, false)];
    forall i | Open(leases, i) ensures leases[i].key != key && Backed(m', leases[i]) {
      assert Backed(m, leases[i]);
    }
    assert forall i :: Open(after, i) <==> Open(leases, i) || i == |leases|;
    forall k | k in m' && m'[k].busy ensures Leased(after, k) {
      if k == key {
        assert Open(after, |leases|);
      } else {
        var i :| Open(leases, i) && leases[i].key == k;
        assert Open(after, i) && after[i].key == k;
      }
    }
  }

  lemma SweepKeepsMatched(m: map<Key, Row>, m': map<Key, Row>, leases: seq<Lease>)
    requires Matched(m, leases) && KeepsBusy(m, m', {})
    ensures Matched(m', leases)
  {
    forall i | Open(leases, i) ensures Backed(m', leases[i]) {
      assert Backed(m, leases[i]);
    }
  }

  /** Acquire keeps the invariant; a key that is leased is refused. */
  lemma TakeKeepsInv(s: Store, lim: Limits, key: Key, now: int, uuid: string)
    requires Inv(s, lim.capacity)
    ensures Inv(Take(s, lim, key, now, uuid).1, lim.capacity)
    ensures Take(s, lim, key, now, uuid).0 ==> !Leased(s.leases, key)
  {
    AcquireKeepsShape(s.rows, lim, key, now, uuid);
    AcquireGrants(s.rows, lim, key, now, uuid);
    var (got, after) := AcquireRows(s.rows, lim, key, now, uuid);
    if got.Some? {
      GrantKeepsMatched(View(s.rows), View(after), s.leases, key, now, got.value);
    } else {
      SweepKeepsMatched(View(s.rows), View(after), s.leases);
    }
  }

  lemma ReturnKeepsMatched(m: map<Key, Row>, leases: seq<Lease>, i: nat, now: int)
    requires Matched(m, leases) && Open(leases, i)
    ensures leases[i].key in m
    ensures var key := leases[i].key;
            Matched(m[key := m[key].(busy := false, touched := now)], leases[i := leases[i].(spent := true)])
  {
    var key := leases[i].key;
    assert Backed(m, leases[i]);
    var m' := m[key := m[key].(busy := false, touched := now)];
    var after := leases[i := leases[i].(spent := true)];
    assert forall j :: Open(after, j) <==> Open(leases, j) && j != i;
    forall j | Open(after, j) ensures Backed(m', after[j]) {
      assert Backed(m, leases[j]);
    }
    forall k | k in m' && m'[k].busy ensures Leased(after, k) {
      var j :| Open(leases, j) && leases[j].key == k;
      assert Open(after, j) && after[j].key == k;
    }
  }

  lemma ReturnKeepsInv(s: Store, i: nat, now: int, capacity: nat)
    requires Inv(s, capacity) && i < |s.leases|
    ensures Inv(Return(s, i, now), capacity)
  {
    if !s.leases[i].spent {
      ReleaseRefinesMap(s.rows, s.leases[i].key, now);
      ReturnKeepsMatched(View(s.rows), s.leases, i, now);
    }
  }

  // ---------- runs ----------

  datatype Op = TakeOp(key: Key, now: int, uuid: string) | ReturnOp(lease: nat, now: int)

  function Apply(s: Store, lim: Limits, op: Op): Store {
    match op
    case TakeOp(key, now, uuid) => Take(s, lim, key, now, uuid).1
    case ReturnOp(i, now) => if i < |s.leases| then Return(s, i, now) else s
  }

  function Run(lim: Limits, ops: seq<Op>): Store {
    if ops == [] then EMPTY else Apply(Run(lim, ops[..|ops| - 1]), lim, ops[|ops| - 1])
  }

  lemma ApplyKeepsInv(s: Store, lim: Limits, op: Op)
    requires Inv(s, lim.capacity)
    ensures Inv(Apply(s, lim, op), lim.capacity)
  {
    match op
    case TakeOp(key, now, uuid) => TakeKeepsInv(s, lim, key, now, uuid);
    case ReturnOp(i, now) => if i < |s.leases| { ReturnKeepsInv(s, i, now, lim.capacity); }
  }

  /** Every run from an empty store, whatever order acquires and releases come in, how often a
      closure is called, and whatever the clock does: at most `capacity` conversations; each
      conversation has at most one outstanding lease; a conversation is busy exactly while leased. */
  lemma {:induction false} EveryRunIsSafe(lim: Limits, ops: seq<Op>)
    ensures Inv(Run(lim, ops), lim.capacity)
    ensures |Run(lim, ops).rows| <= lim.capacity
    ensures forall k :: (k in View(Run(lim, ops).rows) && View(Run(lim, ops).rows)[k].busy) <==>
            Leased(Run(lim, ops).leases, k)
  {
    if ops == [] {
      assert View([]) == map[];
    } else {
      EveryRunIsSafe(lim, ops[..|ops| - 1]);
      ApplyKeepsInv(Run(lim, ops[..|ops| - 1]), lim, ops[|ops| - 1]);
    }
    var s := Run(lim, ops);
    forall k | Leased(s.leases, k) ensures k in View(s.rows) && View(s.rows)[k].busy {
      var i :| Open(s.leases, i) && s.leases[i].key == k;
      assert Backed(View(s.rows), s.leases[i]);
    }
  }

  /** No step except its own release touches a leased conversation: not expiry, not eviction, not
      another caller's acquire, and not any other closure, spent or not. */
  lemma LeaseIsUndisturbed(s: Store, lim: Limits, op: Op, i: nat)
    requires Inv(s, lim.capacity) && Open(s.leases, i)
    requires op.ReturnOp? ==> op.lease != i
    ensures Open(Apply(s, lim, op).leases, i)
    ensures Apply(s, lim, op).leases[i] == s.leases[i]
    ensures var k := s.leases[i].key;
            k in View(Apply(s, lim, op).rows) && View(Apply(s, lim, op).rows)[k] == View(s.rows)[k]
  {
    assert Backed(View(s.rows), s.leases[i]);
    match op
    case TakeOp(key, now, uuid) => AcquireGrants(s.rows, lim, key, now, uuid);
    case ReturnOp(j, now) =>
      if j < |s.leases| && !s.leases[j].spent {
        assert Open(s.leases, j);
        ReleaseRefinesMap(s.rows, s.leases[j].key, now);
      }
  }

  ghost predicate ClockForward(ops: seq<Op>) {
    forall i, j :: 0 <= i < j < |ops| ==> ops[i].now <= ops[j].now
  }

  /** With a clock that never goes back the recency list is sorted by last touch at every moment. */
  lemma {:induction false} RunIsSorted(lim: Limits, ops: seq<Op>, now: int)
    requires ClockForward(ops) && forall i :: 0 <= i < |ops| ==> ops[i].now <= now
    ensures Recency(Run(lim, ops).rows, now)
  {
    if ops != [] {
      var before, op := ops[..|ops| - 1], ops[|ops| - 1];
      RunIsSorted(lim, before, op.now);
      EveryRunIsSafe(lim, before);
      var s := Run(lim, before);
      match op {
        case TakeOp(key, t, uuid) => AcquireKeepsShape(s.rows, lim, key, t, uuid);
        case ReturnOp(i, t) => if i < |s.leases| { ReleaseRefinesMap(s.rows, s.leases[i].key, t); }
      }
      assert Recency(Run(lim, ops).rows, op.now);
    }
  }

  /** So along every run with such a clock, each acquire does to the map what the reference says. */
  lemma EveryTakeRefinesMap(lim: Limits, ops: seq<Op>, key: Key, now: int, uuid: string)
    requires ClockForward(ops + [TakeOp(key, now, uuid)])
    ensures var s := Run(lim, ops);
            var (got, after) := AcquireRows(s.rows, lim, key, now, uuid);
            && MapClaim(Live(View(s.rows), now, lim.ttl), lim.capacity, key, now, uuid, got, View(after))
            && after == Run(lim, ops + [TakeOp(key, now, uuid)]).rows
  {
    var all := ops + [TakeOp(key, now, uuid)];
    assert all[..|all| - 1] == ops && all[|ops|].now == now;
    assert forall i :: 0 <= i < |ops| ==> ops[i] == all[i];
    assert forall i :: 0 <= i < |ops| ==> all[i].now <= all[|ops|].now;
    assert ClockForward(ops);
    RunIsSorted(lim, ops, now);
    EveryRunIsSafe(lim, ops);
    AcquireRefinesMap(Run(lim, ops).rows, lim, key, now, uuid);
  }
}
