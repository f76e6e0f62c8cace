/** When a conversation goes on and when it starts anew: go/session.go told in times, from what a
    caller did last to what the next acquire hands out. */
module Conversations {
  import opened Wrappers
  import opened Sessions
  import opened Leases

  // ---------- which rows stay ----------

  lemma {:induction false} SweepAll(rows: seq<Row>, now: int, ttl: int)
    requires |Sweep(rows, now, ttl)| == |rows|
    ensures Sweep(rows, now, ttl) == rows
  {
    if rows != [] {
      var tail := rows[1..];
      SweepKeeps(tail, now, ttl);
      assert !Stale(rows[0], now, ttl);
      assert |Sweep(tail, now, ttl)| == |tail|;
      SweepAll(tail, now, ttl);
      assert rows == [rows[0]] + tail;
    }
  }

  /** Acquire in a store with room: of the idle rows of other keys exactly those touched less than
      `ttl` ago stay, as they are. */
  lemma IdleRowStays(rows: seq<Row>, lim: Limits, key: Key, now: int, uuid: string, r: Row)
    requires UniqueKeys(rows) && |rows| < lim.capacity
    requires r in rows && !r.busy && r.key != key
    ensures r in AcquireRows(rows, lim, key, now, uuid).1 <==> now - r.touched < lim.ttl
  {
    SweepKeeps(rows, now, lim.ttl);
    ClaimKeepsOthers(Sweep(rows, now, lim.ttl), lim.capacity, key, now, uuid, r);
  }

  lemma ClaimKeepsOthers(s: seq<Row>, capacity: nat, key: Key, now: int, uuid: string, r: Row)
    requires UniqueKeys(s) && |s| < capacity && r.key != key
    ensures r in ClaimRows(s, capacity, key, now, uuid).1 <==> r in s
  {
    var i := Find(s, key);
    if i >= 0 {
      WithoutMembers(s, i);
      if !s[i].busy { InFront(s[i].(busy := true, touched := now), Without(s, i), r); }
    } else {
      InFront(Row(key, uuid, now, true), s, r);
    }
  }

  lemma InFront(x: Row, s: seq<Row>, r: Row)
    requires x != r
    ensures r in [x] + s <==> r in s
  {
  }

  /** The id of an idle conversation is handed out again while it was touched less than `ttl` ago;
      from then on a grant starts a new one. */
  lemma IdByAge(rows: seq<Row>, lim: Limits, key: Key, now: int, uuid: string, r: Row)
    requires UniqueKeys(rows) && r in rows && r.key == key && !r.busy
    ensures var got := AcquireRows(rows, lim, key, now, uuid).0;
            if now - r.touched < lim.ttl then got == Some(r.id) else got.Some? ==> got.value == uuid
  {
    var s := Sweep(rows, now, lim.ttl);
    SweepKeeps(rows, now, lim.ttl);
    SameKeySameRow(rows, r);
    var i := Find(s, key);
    if i >= 0 { assert s[i] in s; }
    if r in s { var j :| 0 <= j < |s| && s[j] == r; }
  }

  lemma SameKeySameRow(rows: seq<Row>, r: Row)
    requires UniqueKeys(rows) && r in rows
    ensures forall x :: x in rows && x.key == r.key ==> x == r
  {
  }

  // ---------- when a lease is granted ----------

  /** A lease is granted exactly when none is outstanding on the key and there is room: fewer rows than
      the capacity, or an idle row that can go. */
  lemma GrantedExactly(s: Store, lim: Limits, key: Key, now: int, uuid: string)
    requires Leases.Inv(s, lim.capacity)
    ensures Take(s, lim, key, now, uuid).0 <==>
            !Leased(s.leases, key) && (|s.rows| < lim.capacity || exists r :: r in s.rows && !r.busy)
  {
    TakeKeepsInv(s, lim, key, now, uuid);
    var rows := Sweep(s.rows, now, lim.ttl);
    SweepKeeps(s.rows, now, lim.ttl);
    if !Leased(s.leases, key) {
      NotBusy(s, lim.capacity, key);
      if Find(rows, key) >= 0 { assert rows[Find(rows, key)] in rows; }
      else if |rows| >= lim.capacity { SweepAll(s.rows, now, lim.ttl); }
    }
    if Take(s, lim, key, now, uuid).0 && |s.rows| >= lim.capacity {
      SomeIdle(s.rows, lim, key, now, uuid);
    }
  }

  lemma NotBusy(s: Store, capacity: nat, key: Key)
    requires Leases.Inv(s, capacity) && !Leased(s.leases, key)
    ensures forall r :: r in s.rows && r.key == key ==> !r.busy
  {
    ViewMembers(s.rows);
  }

  lemma SomeIdle(rows: seq<Row>, lim: Limits, key: Key, now: int, uuid: string)
    requires |rows| >= lim.capacity && AcquireRows(rows, lim, key, now, uuid).0.Some?
    ensures exists r :: r in rows && !r.busy
  {
    var s := Sweep(rows, now, lim.ttl);
    SweepKeeps(rows, now, lim.ttl);
    if |s| == |rows| {
      SweepAll(rows, now, lim.ttl);
      if Find(s, key) >= 0 { assert s[Find(s, key)] in rows; }
      else { assert s[LastIdle(s)] in rows; }
    } else if forall r :: r in rows ==> r.busy {
      AllBusyStay(rows, now, lim.ttl);
    }
  }

  lemma {:induction false} AllBusyStay(rows: seq<Row>, now: int, ttl: int)
    requires forall r :: r in rows ==> r.busy
    ensures Sweep(rows, now, ttl) == rows
  {
    if rows != [] {
      assert rows[0] in rows;
      AllBusyStay(rows[1..], now, ttl);
      assert rows == [rows[0]] + rows[1..];
    }
  }

  // ---------- a conversation along a run ----------

  /** No lease on k is outstanding and its row, if there is one, is idle and last touched at `u`. */
  ghost predicate Rests(s: Store, k: Key, id: string, u: int) {
    && !Leased(s.leases, k)
    && forall r :: r in s.rows && r.key == k ==> r == Row(k, id, u, false)
  }

  ghost predicate Cached(s: Store, k: Key) {
    exists r :: r in s.rows && r.key == k
  }

  /** A first return of lease i at time u. */
  lemma ReturnRests(s: Store, lim: Limits, i: nat, u: int)
    requires Leases.Inv(s, lim.capacity) && Open(s.leases, i)
    ensures var s' := Return(s, i, u);
            Rests(s', s.leases[i].key, s.leases[i].id, u) && Cached(s', s.leases[i].key)
  {
    var l := s.leases[i];
    var s' := Return(s, i, u);
    assert Backed(View(s.rows), l);
    ReturnKeepsInv(s, i, u, lim.capacity);
    ReleaseRefinesMap(s.rows, l.key, u);
    ViewMembers(s.rows);
    ViewMembers(s'.rows);
    assert View(s'.rows)[l.key] == Row(l.key, l.id, u, false);
    assert View(s'.rows)[l.key] in s'.rows;
    forall j | Open(s'.leases, j) ensures s'.leases[j].key != l.key {
      assert Open(s.leases, j) && j != i;
    }
  }

  /** Nobody asks for k in this step. */
  predicate Elsewhere(op: Op, k: Key) {
    op.TakeOp? ==> op.key != k
  }

  /** A step that does not ask for k leaves its row as it is or expires it; it stays when there is room
      and less than `ttl` has passed. */
  lemma StepRests(s: Store, lim: Limits, op: Op, k: Key, id: string, u: int)
    requires Leases.Inv(s, lim.capacity) && Rests(s, k, id, u) && Elsewhere(op, k)
    ensures var s' := Apply(s, lim, op);
            Rests(s', k, id, u) && (Cached(s, k) && |s.rows| < lim.capacity && op.now - u < lim.ttl ==> Cached(s', k))
  {
    match op
    case TakeOp(key, now, uuid) => TakeRests(s, lim, key, now, uuid, k, id, u);
    case ReturnOp(j, now) =>
      if j < |s.leases| && !s.leases[j].spent {
        assert Open(s.leases, j);
        OtherReturnRests(s, lim, j, now, k, id, u);
      }
  }

  lemma TakeRests(s: Store, lim: Limits, key: Key, now: int, uuid: string, k: Key, id: string, u: int)
    requires Leases.Inv(s, lim.capacity) && Rests(s, k, id, u) && key != k
    ensures Rests(Take(s, lim, key, now, uuid).1, k, id, u)
    ensures Cached(s, k) && |s.rows| < lim.capacity && now - u < lim.ttl
            ==> Cached(Take(s, lim, key, now, uuid).1, k)
  {
    var s' := Take(s, lim, key, now, uuid).1;
    TakeLeasesOthers(s, lim, key, now, uuid, k);
    AcquireGrants(s.rows, lim, key, now, uuid);
    AcquireKeepsShape(s.rows, lim, key, now, uuid);
    ViewMembers(s.rows);
    ViewMembers(s'.rows);
    if Cached(s, k) && |s.rows| < lim.capacity {
      var r :| r in s.rows && r.key == k;
      IdleRowStays(s.rows, lim, key, now, uuid, r);
    }
  }

  lemma TakeLeasesOthers(s: Store, lim: Limits, key: Key, now: int, uuid: string, k: Key)
    requires !Leased(s.leases, k) && key != k
    ensures !Leased(Take(s, lim, key, now, uuid).1.leases, k)
  {
    var s' := Take(s, lim, key, now, uuid).1;
    forall j | Open(s'.leases, j) ensures s'.leases[j].key != k {
      if j < |s.leases| { assert Open(s.leases, j); }
    }
  }

  lemma OtherReturnRests(s: Store, lim: Limits, j: nat, now: int, k: Key, id: string, u: int)
    requires Leases.Inv(s, lim.capacity) && Rests(s, k, id, u) && Open(s.leases, j)
    ensures Rests(Return(s, j, now), k, id, u)
    ensures Cached(s, k) ==> Cached(Return(s, j, now), k)
  {
    ReturnLeasesOthers(s, j, now, k);
    ReturnKeepsOthers(s, j, now, k);
  }

  lemma ReturnKeepsOthers(s: Store, j: nat, now: int, k: Key)
    requires UniqueKeys(s.rows) && Open(s.leases, j) && s.leases[j].key != k
    ensures forall r: Row :: r.key == k ==> (r in Return(s, j, now).rows <==> r in s.rows)
  {
    ReleaseRefinesMap(s.rows, s.leases[j].key, now);
    ViewMembers(s.rows);
    ViewMembers(Return(s, j, now).rows);
  }

  lemma ReturnLeasesOthers(s: Store, j: nat, now: int, k: Key)
    requires !Leased(s.leases, k) && Open(s.leases, j)
    ensures s.leases[j].key != k && !Leased(Return(s, j, now).leases, k)
  {
    var s' := Return(s, j, now);
    forall i | Open(s'.leases, i) ensures s'.leases[i].key != k {
      assert Open(s.leases, i);
    }
  }

  /** The stores a run goes through. */
  ghost predicate Trace(lim: Limits, st: seq<Store>, ops: seq<Op>) {
    && |st| == |ops| + 1
    && forall j {:trigger Apply(st[j], lim, ops[j])} :: 0 <= j < |ops| ==> st[j + 1] == Apply(st[j], lim, ops[j])
  }

  lemma StepInTrace(lim: Limits, st: seq<Store>, ops: seq<Op>, n: nat, k: Key, id: string, u: int)
    requires Trace(lim, st, ops) && n < |ops|
    requires Leases.Inv(st[n], lim.capacity) && Rests(st[n], k, id, u) && Elsewhere(ops[n], k)
    ensures Leases.Inv(st[n + 1], lim.capacity) && Rests(st[n + 1], k, id, u)
    ensures Cached(st[n], k) && |st[n].rows| < lim.capacity && ops[n].now - u < lim.ttl ==> Cached(st[n + 1], k)
  {
    assert st[n + 1] == Apply(st[n], lim, ops[n]);
    ApplyKeepsInv(st[n], lim, ops[n]);
    StepRests(st[n], lim, ops[n], k, id, u);
  }

  lemma {:induction false} RestsOn(lim: Limits, st: seq<Store>, ops: seq<Op>, n: nat, k: Key, id: string, u: int)
    requires Trace(lim, st, ops) && n < |st| && Leases.Inv(st[0], lim.capacity) && Rests(st[0], k, id, u)
    requires forall j :: 0 <= j < |ops| ==> Elsewhere(ops[j], k)
    ensures Leases.Inv(st[n], lim.capacity) && Rests(st[n], k, id, u)
    ensures (Cached(st[0], k) && forall j :: 0 <= j < n ==> |st[j].rows| < lim.capacity && ops[j].now - u < lim.ttl)
            ==> Cached(st[n], k)
  {
    if n > 0 {
      RestsOn(lim, st, ops, n - 1, k, id, u);
      StepInTrace(lim, st, ops, n - 1, k, id, u);
    }
  }

  /** The stores after each beginning of `more`, on top of a run. */
  lemma RunIsTrace(lim: Limits, ops: seq<Op>, more: seq<Op>) returns (st: seq<Store>)
    ensures Trace(lim, st, more)
    ensures forall j :: 0 <= j <= |more| ==> st[j] == Run(lim, ops + more[..j])
  {
    st := seq(|more| + 1, j requires 0 <= j <= |more| => Run(lim, ops + more[..j]));
    forall j | 0 <= j < |more| ensures st[j + 1] == Apply(st[j], lim, more[j]) {
      RunPrefix(lim, ops, more, j);
    }
  }

  lemma RunPrefix(lim: Limits, ops: seq<Op>, more: seq<Op>, j: nat)
    requires j < |more|
    ensures Run(lim, ops + more[..j + 1]) == Apply(Run(lim, ops + more[..j]), lim, more[j])
  {
    assert ops + more[..j + 1] == (ops + more[..j]) + [more[j]];
    RunLast(lim, ops + more[..j], more[j]);
  }

  lemma RunLast(lim: Limits, ops: seq<Op>, op: Op)
    ensures Run(lim, ops + [op]) == Apply(Run(lim, ops), lim, op)
  {
    assert (ops + [op])[..|ops|] == ops;
  }

  /** What acquire of k at `now` hands out for a conversation at rest. */
  lemma TakeAtRest(s: Store, lim: Limits, k: Key, id: string, u: int, now: int, uuid: string)
    requires Leases.Inv(s, lim.capacity) && Rests(s, k, id, u)
    ensures var got := AcquireRows(s.rows, lim, k, now, uuid).0;
            && (Cached(s, k) && now - u < lim.ttl ==> got == Some(id))
            && (now - u >= lim.ttl && got.Some? ==> got.value == uuid)
  {
    if Cached(s, k) {
      var r :| r in s.rows && r.key == k;
      IdByAge(s.rows, lim, k, now, uuid, r);
    } else {
      NewKeyNewId(s.rows, lim, k, now, uuid);
    }
  }

  lemma NewKeyNewId(rows: seq<Row>, lim: Limits, key: Key, now: int, uuid: string)
    requires forall r :: r in rows ==> r.key != key
    ensures AcquireRows(rows, lim, key, now, uuid).0.Some? ==> AcquireRows(rows, lim, key, now, uuid).0.value == uuid
  {
    SweepKeeps(rows, now, lim.ttl);
    var s := Sweep(rows, now, lim.ttl);
    forall j | 0 <= j < |s| ensures s[j].key != key {
      assert s[j] in s;
    }
  }

  /** The whole life of a return: lease i is given back at time u by the last step of `ops`, then come
      the steps `more`, none of which asks for its conversation, then an acquire of it at `now`. Under
      a clock that does not go back, less than `ttl` later the conversation goes on under its id, as
      long as the store had room meanwhile; from `ttl` on it never does: what is granted is new. */
  lemma ConversationGoesOn(lim: Limits, ops: seq<Op>, i: nat, u: int, more: seq<Op>, k: Key, now: int, uuid: string)
    requires ClockForward(ops + [ReturnOp(i, u)] + more + [TakeOp(k, now, uuid)])
    requires Open(Run(lim, ops).leases, i) && Run(lim, ops).leases[i].key == k
    requires forall j :: 0 <= j < |more| ==> Elsewhere(more[j], k)
    ensures var returned := ops + [ReturnOp(i, u)];
            var s := Run(lim, returned + more);
            var after := Run(lim, returned + more + [TakeOp(k, now, uuid)]);
            var granted := |after.leases| == |s.leases| + 1;
            && (now - u < lim.ttl && RoomAlong(lim, returned, more)
                ==> granted && after.leases == s.leases + [Lease(k, Run(lim, ops).leases[i].id, false)])
            && (now - u >= lim.ttl && granted
                ==> after.leases == s.leases + [Lease(k, uuid, false)])
  {
    var returned := ops + [ReturnOp(i, u)];
    var r := Run(lim, returned);
    var id := Run(lim, ops).leases[i].id;
    assert returned[..|returned| - 1] == ops;
    EveryRunIsSafe(lim, ops);
    EveryRunIsSafe(lim, returned);
    ReturnRests(Run(lim, ops), lim, i, u);
    Times(ops, i, u, more, k, now, uuid);
    LastTake(lim, returned, more, k, id, u, now, uuid);
    GrantInRun(lim, returned + more, k, now, uuid);
  }

  lemma GrantInRun(lim: Limits, ops: seq<Op>, k: Key, now: int, uuid: string)
    ensures var got := AcquireRows(Run(lim, ops).rows, lim, k, now, uuid).0;
            Run(lim, ops + [TakeOp(k, now, uuid)]).leases
            == Run(lim, ops).leases + (if got.Some? then [Lease(k, got.value, false)] else [])
  {
    RunLast(lim, ops, TakeOp(k, now, uuid));
  }

  /** Fewer rows than the capacity before each step of `more`. */
  predicate RoomAlong(lim: Limits, ops: seq<Op>, more: seq<Op>) {
    forall j :: 0 <= j < |more| ==> |Run(lim, ops + more[..j]).rows| < lim.capacity
  }

  lemma LastTake(lim: Limits, ops: seq<Op>, more: seq<Op>, k: Key, id: string, u: int, now: int, uuid: string)
    requires Leases.Inv(Run(lim, ops), lim.capacity) && Rests(Run(lim, ops), k, id, u) && Cached(Run(lim, ops), k)
    requires forall j :: 0 <= j < |more| ==> Elsewhere(more[j], k) && more[j].now <= now
    ensures var got := AcquireRows(Run(lim, ops + more).rows, lim, k, now, uuid).0;
            && (now - u < lim.ttl && RoomAlong(lim, ops, more) ==> got == Some(id))
            && (now - u >= lim.ttl && got.Some? ==> got.value == uuid)
  {
    var st := RunIsTrace(lim, ops, more);
    assert more[..|more|] == more && ops + more[..0] == ops;
    RestsOn(lim, st, more, |more|, k, id, u);
    if now - u < lim.ttl && RoomAlong(lim, ops, more) {
      assert forall j :: 0 <= j < |more| ==> |st[j].rows| < lim.capacity && more[j].now - u < lim.ttl;
    }
    TakeAtRest(st[|more|], lim, k, id, u, now, uuid);
  }

  lemma Times(ops: seq<Op>, i: nat, u: int, more: seq<Op>, k: Key, now: int, uuid: string)
    requires ClockForward(ops + [ReturnOp(i, u)] + more + [TakeOp(k, now, uuid)])
    ensures forall j :: 0 <= j < |more| ==> more[j].now <= now
  {
    var all := ops + [ReturnOp(i, u)] + more + [TakeOp(k, now, uuid)];
    forall j | 0 <= j < |more| ensures more[j].now <= now {
      assert all[|ops| + 1 + j] == more[j] && all[|all| - 1].now == now;
    }
  }
}
