/** The conversation store of go/session.go.

    `Row` is one cached conversation. A store is read as the sequence of its rows in the order
    of the recency list, most recently touched first. The functions on rows say what the locked
    regions of the store compute; `SessionStore` (SessionStore.dfy) is the map-and-list object
    that is proved to compute it, and the lemmas here say what the rows promise to a caller. */
module Sessions {
  import opened Wrappers

  datatype Key = Key(caller: string, auth: string, id: string)
  datatype Row = Row(key: Key, id: string, touched: int, busy: bool)
  datatype Limits = Limits(capacity: nat, ttl: int)

  // ---------- rows ----------

  predicate Stale(r: Row, now: int, ttl: int) {
    !r.busy && now - r.touched >= ttl
  }

  /** What is left after dropping every idle expired row. */
  function Sweep(rows: seq<Row>, now: int, ttl: int): (kept: seq<Row>)
  {
    if rows == [] then []
    else (if Stale(rows[0], now, ttl) then [] else [rows[0]]) + Sweep(rows[1..], now, ttl)
  }

  /** Position of the row with this key, or -1. */
  function Find(rows: seq<Row>, key: Key): (i: int)
    ensures -1 <= i < |rows|
    ensures i >= 0 ==> rows[i].key == key
    ensures i < 0 ==> forall j :: 0 <= j < |rows| ==> rows[j].key != key
  {
    if rows == [] then -1
    else if rows[0].key == key then 0
    else var i := Find(rows[1..], key); if i < 0 then -1 else i + 1
  }

  /** Position of the idle row nearest the back, or -1. */
  function LastIdle(rows: seq<Row>): (i: int)
    ensures -1 <= i < |rows|
    ensures i >= 0 ==> !rows[i].busy
    ensures forall j :: i < j < |rows| ==> rows[j].busy
  {
    if rows == [] then -1
    else if !rows[|rows| - 1].busy then |rows| - 1
    else LastIdle(rows[..|rows| - 1])
  }

  function Without<T>(s: seq<T>, i: int): seq<T>
    requires 0 <= i < |s|
  {
    s[..i] + s[i + 1..]
  }

  /** acquire: the session id handed out (None when refused) and the rows left behind. */
  function AcquireRows(rows: seq<Row>, lim: Limits, key: Key, now: int, uuid: string): (Option<string>, seq<Row>) {
    ClaimRows(Sweep(rows, now, lim.ttl), lim.capacity, key, now, uuid)
  }

  /** The part of acquire after the sweep. */
  function ClaimRows(s: seq<Row>, capacity: nat, key: Key, now: int, uuid: string): (Option<string>, seq<Row>) {
    var i := Find(s, key);
    if i >= 0 then
      if s[i].busy then (None, s)
      else (Some(s[i].id), [s[i].(busy := true, touched := now)] + Without(s, i))
    else
      var row := Row(key, uuid, now, true);
      if |s| >= capacity then
        var v := LastIdle(s);
        if v < 0 then (None, s) else (Some(uuid), [row] + Without(s, v))
      else (Some(uuid), [row] + s)
  }

  /** The row under `key` set busy or idle, stamped, and moved to the front. */
  function TouchedRows(rows: seq<Row>, key: Key, busy: bool, now: int): seq<Row> {
    var i := Find(rows, key);
    if i < 0 then rows else [rows[i].(busy := busy, touched := now)] + Without(rows, i)
  }

  /** The effect of a first release of the lease on `key`. */
  function ReleaseRows(rows: seq<Row>, key: Key, now: int): seq<Row> {
    TouchedRows(rows, key, false, now)
  }

  // ---------- shape of the rows ----------

  ghost predicate UniqueKeys(rows: seq<Row>) {
    forall i, j :: 0 <= i < j < |rows| ==> rows[i].key != rows[j].key
  }

  /** Most recently touched first, nothing touched after `now`. */
  ghost predicate Recency(rows: seq<Row>, now: int) {
    && (forall i :: 0 <= i < |rows| ==> rows[i].touched <= now)
    && (forall i, j :: 0 <= i < j < |rows| ==> rows[i].touched >= rows[j].touched)
  }

  lemma {:induction false} SweepKeeps(rows: seq<Row>, now: int, ttl: int)
    ensures |Sweep(rows, now, ttl)| <= |rows|
    ensures forall r :: r in Sweep(rows, now, ttl) <==> r in rows && (r.busy || now - r.touched < ttl)
    ensures UniqueKeys(rows) ==> UniqueKeys(Sweep(rows, now, ttl))
  {
    if rows != [] {
      SweepKeeps(rows[1..], now, ttl);
      var rest := Sweep(rows[1..], now, ttl);
      assert rows == [rows[0]] + rows[1..];
      if UniqueKeys(rows) && !Stale(rows[0], now, ttl) {
        forall j | 0 <= j < |rest| ensures rest[j].key != rows[0].key {
          assert rest[j] in rest;
        }
      }
    }
  }

  lemma PushOrdered(r: Row, rows: seq<Row>, now: int)
    requires Recency(rows, now) && r.touched <= now
    requires forall j :: 0 <= j < |rows| ==> rows[j].touched <= r.touched
    ensures Recency([r] + rows, now)
  {
    var t := [r] + rows;
    forall i, j | 0 <= i < j < |t| ensures t[i].touched >= t[j].touched {
      assert t[j] == rows[j - 1];
    }
  }

  lemma SweptNotLater(rows: seq<Row>, now: int, ttl: int, last: int)
    requires forall j :: 0 <= j < |rows| ==> rows[j].touched <= last
    ensures forall j :: 0 <= j < |Sweep(rows, now, ttl)| ==> Sweep(rows, now, ttl)[j].touched <= last
  {
    SweepKeeps(rows, now, ttl);
    var kept := Sweep(rows, now, ttl);
    forall j | 0 <= j < |kept| ensures kept[j].touched <= last {
      assert kept[j] in rows;
    }
  }

  lemma {:induction false} SweepOrdered(rows: seq<Row>, now: int, ttl: int)
    requires Recency(rows, now)
    ensures Recency(Sweep(rows, now, ttl), now)
  {
    if rows != [] {
      var tail := rows[1..];
      SweepOrdered(tail, now, ttl);
      SweptNotLater(tail, now, ttl, rows[0].touched);
      PushOrdered(rows[0], Sweep(tail, now, ttl), now);
    }
  }

  // ---------- the store as a plain map ----------

  /** The same rows, looked up by key. */
  ghost function View(rows: seq<Row>): map<Key, Row> {
    map k | k in (set r | r in rows :: r.key) :: Lookup(rows, k)
  }

  ghost function Lookup(rows: seq<Row>, k: Key): Row
    requires k in (set r | r in rows :: r.key)
  {
    var i := Find(rows, k);
    rows[i]
  }

  lemma ViewMembers(rows: seq<Row>)
    requires UniqueKeys(rows)
    ensures forall r :: r in rows <==> r.key in View(rows) && View(rows)[r.key] == r
    ensures forall k :: k in View(rows) ==> View(rows)[k].key == k && View(rows)[k] in rows
  {
    forall r | r in rows ensures r.key in View(rows) && View(rows)[r.key] == r {
      var i := Find(rows, r.key);
      assert rows[i].key == r.key;
    }
  }

  /** Unique rows are determined as a map by their members. */
  lemma ViewFromMembers(rows: seq<Row>, m: map<Key, Row>)
    requires UniqueKeys(rows)
    requires forall k :: k in m ==> m[k].key == k
    requires forall r :: r in rows <==> r.key in m && m[r.key] == r
    ensures View(rows) == m
  {
    ViewMembers(rows);
    var v := View(rows);
    forall k ensures k in v <==> k in m {
      if k in m { assert m[k] in rows; }
    }
    forall k | k in v ensures v[k] == m[k] {
      assert v[k] in rows;
    }
  }

  lemma ViewCons(r: Row, rows: seq<Row>)
    requires UniqueKeys(rows) && r.key !in View(rows)
    ensures UniqueKeys([r] + rows)
    ensures View([r] + rows) == View(rows)[r.key := r]
  {
    ViewMembers(rows);
    var t, m := [r] + rows, View(rows)[r.key := r];
    forall j | 0 <= j < |rows| ensures rows[j].key != r.key {
      assert rows[j] in rows;
    }
    assert UniqueKeys(t);
    forall x ensures x in t <==> x == r || x in rows {
    }
    ViewFromMembers(t, m);
  }

  lemma {:induction false} ViewSize(rows: seq<Row>)
    requires UniqueKeys(rows)
    ensures |View(rows)| == |rows|
  {
    if rows == [] {
      assert View(rows) == map[];
    } else {
      var head, rest := rows[0], rows[1..];
      ViewSize(rest);
      ViewMembers(rest);
      assert rows == [head] + rest;
      assert head.key !in View(rest);
      ViewCons(head, rest);
    }
  }

  /** The cells that have not expired: busy, or touched less than `ttl` ago. */
  ghost function Live(m: map<Key, Row>, now: int, ttl: int): map<Key, Row> {
    map k | k in m && (m[k].busy || now - m[k].touched < ttl) :: m[k]
  }

  /** Reference meaning of a claim on a map: a busy cell refuses; an idle cell is reused with its
      id; a new cell needs room, made by dropping a least recently touched idle cell, and is
      refused when every cell is busy. */
  ghost predicate MapClaim(m: map<Key, Row>, capacity: nat, key: Key, now: int, uuid: string,
                           got: Option<string>, m': map<Key, Row>)
  {
    if key in m then
      if m[key].busy then got == None && m' == m
      else got == Some(m[key].id) && m' == m[key := Row(key, m[key].id, now, true)]
    else if |m| < capacity then
      got == Some(uuid) && m' == m[key := Row(key, uuid, now, true)]
    else if forall k :: k in m ==> m[k].busy then
      got == None && m' == m
    else
      && got == Some(uuid)
      && exists victim ::
           && victim in m && LeastRecentIdle(m, victim)
           && m' == (m - {victim})[key := Row(key, uuid, now, true)]
  }

  ghost predicate LeastRecentIdle(live: map<Key, Row>, victim: Key)
    requires victim in live
  {
    && !live[victim].busy
    && forall k :: k in live && !live[k].busy ==> live[victim].touched <= live[k].touched
  }

  lemma WithoutMembers(s: seq<Row>, i: int)
    requires UniqueKeys(s) && 0 <= i < |s|
    ensures UniqueKeys(Without(s, i))
    ensures forall r :: r in Without(s, i) <==> r in s && r.key != s[i].key
    ensures |Without(s, i)| == |s| - 1
  {
    var t := Without(s, i);
    forall r | r in s && r.key != s[i].key ensures r in t {
      var j :| 0 <= j < |s| && s[j] == r;
      assert if j < i then t[j] == r else t[j - 1] == r;
    }
  }

  lemma SweepView(rows: seq<Row>, now: int, ttl: int)
    requires UniqueKeys(rows)
    ensures View(Sweep(rows, now, ttl)) == Live(View(rows), now, ttl)
  {
    SweepKeeps(rows, now, ttl);
    ViewMembers(rows);
    ViewFromMembers(Sweep(rows, now, ttl), Live(View(rows), now, ttl));
  }

  /** View of the rows with one of them (or none) replaced by a new row at the front. */
  lemma PushView(s: seq<Row>, i: int, r: Row)
    requires UniqueKeys(s) && 0 <= i < |s|
    requires r.key == s[i].key || forall x :: x in s ==> x.key != r.key
    ensures View([r] + Without(s, i)) == (View(s) - {s[i].key})[r.key := r]
  {
    WithoutView(s, i);
    var rest := Without(s, i);
    ViewMembers(rest);
    WithoutMembers(s, i);
    ViewCons(r, rest);
  }

  lemma WithoutView(s: seq<Row>, i: int)
    requires UniqueKeys(s) && 0 <= i < |s|
    ensures View(Without(s, i)) == View(s) - {s[i].key}
  {
    WithoutMembers(s, i);
    ViewMembers(s);
    ViewFromMembers(Without(s, i), View(s) - {s[i].key});
  }

  /** A row that is (re)opened or closed keeps the recency order. */
  lemma TouchOrdered(s: seq<Row>, i: int, r: Row, now: int)
    requires Recency(s, now) && 0 <= i < |s| && r.touched == now
    ensures Recency([r] + Without(s, i), now)
  {
    PushOrdered(r, Without(s, i), now);
  }

  /** The idle row nearest the back of an ordered list is a least recently touched idle row. */
  lemma VictimIsLeastRecent(s: seq<Row>, now: int)
    requires UniqueKeys(s) && Recency(s, now) && LastIdle(s) >= 0
    ensures s[LastIdle(s)].key in View(s) && LeastRecentIdle(View(s), s[LastIdle(s)].key)
  {
    var v := LastIdle(s);
    ViewMembers(s);
    assert s[v] in s;
    var m := View(s);
    forall k | k in m && !m[k].busy ensures s[v].touched <= m[k].touched {
      var j :| 0 <= j < |s| && s[j] == m[k];
    }
  }

  /** Looking a key up in the list is looking it up in the map. */
  lemma ViewFind(s: seq<Row>, key: Key)
    requires UniqueKeys(s)
    ensures key in View(s) <==> Find(s, key) >= 0
    ensures key in View(s) ==> View(s)[key] == s[Find(s, key)]
  {
    ViewMembers(s);
    if Find(s, key) >= 0 { assert s[Find(s, key)] in s; }
  }

  lemma RewriteView(s: seq<Row>, i: int, r: Row)
    requires UniqueKeys(s) && 0 <= i < |s| && r.key == s[i].key
    ensures View([r] + Without(s, i)) == View(s)[r.key := r]
  {
    PushView(s, i, r);
    assert (View(s) - {r.key})[r.key := r] == View(s)[r.key := r];
  }

  lemma ClaimRefinesMap(s: seq<Row>, capacity: nat, key: Key, now: int, uuid: string)
    requires UniqueKeys(s) && Recency(s, now)
    ensures var (got, after) := ClaimRows(s, capacity, key, now, uuid);
            MapClaim(View(s), capacity, key, now, uuid, got, View(after))
  {
    ViewFind(s, key);
    ViewSize(s);
    var i := Find(s, key);
    if i >= 0 {
      RewriteView(s, i, s[i].(busy := true, touched := now));
    } else if |s| < capacity {
      ViewCons(Row(key, uuid, now, true), s);
    } else if LastIdle(s) >= 0 {
      PushView(s, LastIdle(s), Row(key, uuid, now, true));
      VictimIsLeastRecent(s, now);
    } else {
      ViewMembers(s);
    }
  }

  /** The recency list implements the map: under a clock that has not gone back, what acquire
      returns and leaves is what the reference allows on the cells that have not expired. */
  lemma AcquireRefinesMap(rows: seq<Row>, lim: Limits, key: Key, now: int, uuid: string)
    requires UniqueKeys(rows) && Recency(rows, now)
    ensures var (got, after) := AcquireRows(rows, lim, key, now, uuid);
            MapClaim(Live(View(rows), now, lim.ttl), lim.capacity, key, now, uuid, got, View(after))
  {
    SweepKeeps(rows, now, lim.ttl);
    SweepOrdered(rows, now, lim.ttl);
    SweepView(rows, now, lim.ttl);
    ClaimRefinesMap(Sweep(rows, now, lim.ttl), lim.capacity, key, now, uuid);
  }

  /** Recency order, unique keys and the size bound survive acquire. */
  lemma AcquireKeepsShape(rows: seq<Row>, lim: Limits, key: Key, now: int, uuid: string)
    requires UniqueKeys(rows) && |rows| <= lim.capacity
    ensures var after := AcquireRows(rows, lim, key, now, uuid).1;
            && UniqueKeys(after) && |after| <= lim.capacity
            && (Recency(rows, now) ==> Recency(after, now))
  {
    SweepKeeps(rows, now, lim.ttl);
    if Recency(rows, now) { SweepOrdered(rows, now, lim.ttl); }
    ClaimKeepsShape(Sweep(rows, now, lim.ttl), lim.capacity, key, now, uuid);
  }

  lemma ClaimKeepsShape(s: seq<Row>, capacity: nat, key: Key, now: int, uuid: string)
    requires UniqueKeys(s) && |s| <= capacity
    ensures var after := ClaimRows(s, capacity, key, now, uuid).1;
            && UniqueKeys(after) && |after| <= capacity
            && (Recency(s, now) ==> Recency(after, now))
  {
    var i, v, r := Find(s, key), LastIdle(s), Row(key, uuid, now, true);
    if i >= 0 {
      MoveShape(s, i, s[i].(busy := true, touched := now), now);
    } else if |s| < capacity {
      if Recency(s, now) { PushOrdered(r, s, now); }
    } else if v >= 0 {
      MoveShape(s, v, r, now);
    }
  }

  lemma MoveShape(s: seq<Row>, i: int, r: Row, now: int)
    requires UniqueKeys(s) && 0 <= i < |s| && r.touched == now
    requires r.key == s[i].key || forall j :: 0 <= j < |s| ==> s[j].key != r.key
    ensures UniqueKeys([r] + Without(s, i)) && |[r] + Without(s, i)| == |s|
    ensures Recency(s, now) ==> Recency([r] + Without(s, i), now)
  {
    if Recency(s, now) { TouchOrdered(s, i, r, now); }
  }

  /** Release on the map: the cell under `key` becomes idle and freshly touched, and nothing else. */
  lemma ReleaseRefinesMap(rows: seq<Row>, key: Key, now: int)
    requires UniqueKeys(rows)
    ensures var m, after := View(rows), ReleaseRows(rows, key, now);
            && View(after) == (if key in m then m[key := m[key].(busy := false, touched := now)] else m)
            && UniqueKeys(after) && |after| == |rows|
            && (Recency(rows, now) ==> Recency(after, now))
  {
    ViewFind(rows, key);
    var i := Find(rows, key);
    if i >= 0 {
      var r := rows[i].(busy := false, touched := now);
      RewriteView(rows, i, r);
      MoveShape(rows, i, r, now);
    }
  }
}
