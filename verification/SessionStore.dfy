/** The session store object of go/session.go: a map and a recency list over shared entries, and
    release closures that hold on to their entry. */
module SessionStores {
  import opened Wrappers
  import opened Sessions

  class Entry {
    const key: Key
    const id: string
    var touched: int
    var busy: bool

    constructor (key: Key, id: string)
      ensures this.key == key && this.id == id && AsRow() == Row(key, id, 0, false)
    {
      this.key := key;
      this.id := id;
      touched := 0;
      busy := false;
    }

    function AsRow(): Row
      reads this
    {
      Row(key, id, touched, busy)
    }
  }

  /** The closure acquire returns: its entry and the state of its sync.Once. */
  class Closure {
    const entry: Entry
    var spent: bool

    constructor (entry: Entry)
      ensures this.entry == entry && !spent
    {
      this.entry := entry;
      spent := false;
    }
  }

  /** Map and list hold exactly the same entries, one per key (see LinksMean). */
  ghost predicate Links(entries: map<Key, Entry>, lru: seq<Entry>) {
    if lru == [] then entries == map[]
    else
      var e := lru[0];
      e.key in entries && entries[e.key] == e && Links(entries - {e.key}, lru[1..])
  }

  lemma {:induction false} LinksMean(entries: map<Key, Entry>, lru: seq<Entry>)
    requires Links(entries, lru)
    ensures |lru| == |entries|
    ensures forall i, j :: 0 <= i < j < |lru| ==> lru[i].key != lru[j].key
    ensures forall e :: e in lru ==> e.key in entries && entries[e.key] == e
    ensures forall k :: k in entries ==> entries[k].key == k && entries[k] in lru
  {
    if lru != [] {
      var k := lru[0].key;
      var m := entries - {k};
      LinksMean(m, lru[1..]);
      assert entries == m[k := lru[0]];
      assert lru == [lru[0]] + lru[1..];
    }
  }

  lemma Distinct(entries: map<Key, Entry>, lru: seq<Entry>)
    requires Links(entries, lru)
    ensures forall k :: k in entries ==> entries[k].key == k
  {
    LinksMean(entries, lru);
  }

  lemma LinksSize(entries: map<Key, Entry>, lru: seq<Entry>)
    requires Links(entries, lru)
    ensures |lru| == |entries|
  {
    LinksMean(entries, lru);
  }

  lemma {:induction false} RemoveLinks(entries: map<Key, Entry>, lru: seq<Entry>, i: nat)
    requires Links(entries, lru) && i < |lru|
    ensures Links(entries - {lru[i].key}, Without(lru, i))
    ensures lru[i].key in entries && entries[lru[i].key] == lru[i]
  {
    if i == 0 {
      assert Without(lru, 0) == lru[1..];
    } else {
      var k, k0 := lru[i].key, lru[0].key;
      RemoveLinks(entries - {k0}, lru[1..], i - 1);
      assert Without(lru, i)[1..] == Without(lru[1..], i - 1);
      assert entries - {k} - {k0} == entries - {k0} - {k};
    }
  }

  lemma InsertLinks(entries: map<Key, Entry>, lru: seq<Entry>, e: Entry)
    requires Links(entries, lru) && e.key !in entries
    ensures Links(entries[e.key := e], [e] + lru)
  {
    assert entries[e.key := e] - {e.key} == entries;
    assert ([e] + lru)[1..] == lru;
  }

  lemma MoveLinks(entries: map<Key, Entry>, lru: seq<Entry>, i: nat)
    requires Links(entries, lru) && i < |lru|
    ensures Links(entries, [lru[i]] + Without(lru, i))
  {
    RemoveLinks(entries, lru, i);
    var k := lru[i].key;
    InsertLinks(entries - {k}, Without(lru, i), lru[i]);
    assert (entries - {k})[k := lru[i]] == entries;
  }

  /** The entries a sweep at `now` leaves, in order, when `rows` is what they hold. */
  ghost function Kept(es: seq<Entry>, rows: seq<Row>, now: int, ttl: int): seq<Entry>
    requires |es| == |rows|
  {
    if es == [] then []
    else (if Stale(rows[0], now, ttl) then [] else [es[0]]) + Kept(es[1..], rows[1..], now, ttl)
  }

  lemma KeptStep(all: seq<Entry>, rows: seq<Row>, i: nat, now: int, ttl: int)
    requires i < |all| == |rows|
    ensures var rest := Kept(all[i + 1..], rows[i + 1..], now, ttl);
            && Kept(all[i..], rows[i..], now, ttl) == (if Stale(rows[i], now, ttl) then rest else [all[i]] + rest)
            && all[..i + 1] + rest == all[..i] + ([all[i]] + rest)
            && (all[..i + 1] + rest)[i] == all[i]
            && Without(all[..i + 1] + rest, i) == all[..i] + rest
  {
    assert all[i..][1..] == all[i + 1..] && rows[i..][1..] == rows[i + 1..];
  }

  lemma SweepStep(rows: seq<Row>, i: nat, now: int, ttl: int)
    requires i < |rows|
    ensures var rest := Sweep(rows[i + 1..], now, ttl);
            && Sweep(rows[i..], now, ttl) == (if Stale(rows[i], now, ttl) then rest else [rows[i]] + rest)
            && rows[..i + 1] + rest == rows[..i] + ([rows[i]] + rest)
            && Without(rows[..i + 1] + rest, i) == rows[..i] + rest
  {
    assert rows[i..][1..] == rows[i + 1..];
  }

  ghost predicate Holds(es: seq<Entry>, rows: seq<Row>)
    reads es
  {
    |es| == |rows| && forall i :: 0 <= i < |es| ==> es[i].AsRow() == rows[i]
  }

  lemma HoldsWithout(es: seq<Entry>, rows: seq<Row>, i: nat)
    requires Holds(es, rows) && i < |es|
    ensures Holds(Without(es, i), Without(rows, i))
  {
  }

  /** The i-th entry moved to the front, when the other entries hold what they held. */
  lemma HoldsMoved(es: seq<Entry>, rows: seq<Row>, i: nat)
    requires i < |es| == |rows| && forall j :: 0 <= j < |es| && j != i ==> es[j].AsRow() == rows[j]
    ensures Holds([es[i]] + Without(es, i), [es[i].AsRow()] + Without(rows, i))
  {
  }

  lemma {:induction false} KeptIsSweep(es: seq<Entry>, rows: seq<Row>, now: int, ttl: int)
    requires Holds(es, rows)
    ensures Holds(Kept(es, rows, now, ttl), Sweep(rows, now, ttl))
    ensures forall e :: e in Kept(es, rows, now, ttl) ==> e in es
    ensures forall e :: e in es && e.busy ==> e in Kept(es, rows, now, ttl)
  {
    if es != [] {
      KeptIsSweep(es[1..], rows[1..], now, ttl);
      assert es == [es[0]] + es[1..];
    }
  }

  lemma {:induction false} FindUnique(rows: seq<Row>, i: nat)
    requires i < |rows| && UniqueKeys(rows)
    ensures Find(rows, rows[i].key) == i
  {
    if i > 0 { FindUnique(rows[1..], i - 1); }
  }

  lemma Position(entries: map<Key, Entry>, lru: seq<Entry>, rows: seq<Row>, e: Entry)
    requires Links(entries, lru) && Holds(lru, rows) && e.key in entries && entries[e.key] == e
    ensures e in lru && forall i :: 0 <= i < |lru| && lru[i] == e ==> Find(rows, e.key) == i
    ensures forall i, j :: 0 <= i < j < |lru| ==> lru[i] != lru[j]
  {
    LinksMean(entries, lru);
    forall i | 0 <= i < |lru| && lru[i] == e ensures Find(rows, e.key) == i {
      FindUnique(rows, i);
    }
  }

  /** The swept map is part of the old one and still has every busy entry. */
  lemma SweptMap(m: map<Key, Entry>, lru: seq<Entry>, rows: seq<Row>, m': map<Key, Entry>, now: int, ttl: int)
    requires Links(m, lru) && Holds(lru, rows) && Links(m', Kept(lru, rows, now, ttl))
    ensures forall k :: k in m' ==> k in m && m'[k] == m[k]
    ensures forall k :: k in m && m[k].busy ==> k in m'
  {
    KeptIsSweep(lru, rows, now, ttl);
    LinksMean(m, lru);
    LinksMean(m', Kept(lru, rows, now, ttl));
  }

  /** The map finds an entry exactly when the rows have one under that key, and it is that one. */
  lemma KeyInMap(entries: map<Key, Entry>, lru: seq<Entry>, rows: seq<Row>, key: Key)
    requires Links(entries, lru) && Holds(lru, rows)
    ensures key in entries <==> Find(rows, key) >= 0
    ensures key in entries ==> entries[key].AsRow() == rows[Find(rows, key)] && entries[key] in lru
  {
    LinksMean(entries, lru);
    var i := Find(rows, key);
    if i >= 0 {
      assert lru[i].key == key && lru[i] in lru;
    }
    if key in entries {
      var j :| 0 <= j < |lru| && lru[j] == entries[key];
      assert rows[j].key == key;
    }
  }

  /** Room for one more row, made by dropping the idle row nearest the back when the list is full. */
  function RoomRows(s: seq<Row>, capacity: nat): (bool, seq<Row>) {
    var v := LastIdle(s);
    if |s| < capacity then (true, s) else if v < 0 then (false, s) else (true, Without(s, v))
  }

  /** An idle row under `key` and its session id, or None and no change. */
  function SeatRows(s: seq<Row>, capacity: nat, key: Key, uuid: string): (Option<string>, seq<Row>) {
    var i, room := Find(s, key), RoomRows(s, capacity);
    if i >= 0 then (if s[i].busy then None else Some(s[i].id), s)
    else if room.0 then (Some(uuid), [Row(key, uuid, 0, false)] + room.1)
    else (None, s)
  }

  /** A claim is: seat an idle row, then touch it. */
  lemma ClaimBySeat(s: seq<Row>, capacity: nat, key: Key, now: int, uuid: string)
    ensures var (got, seated) := SeatRows(s, capacity, key, uuid);
            ClaimRows(s, capacity, key, now, uuid) ==
            (got, if got.None? then seated else TouchedRows(seated, key, true, now))
  {
    var room := RoomRows(s, capacity).1;
    assert Without([Row(key, uuid, 0, false)] + room, 0) == room;
  }

  class SessionStore {
    var entries: map<Key, Entry>
    var lru: seq<Entry>                // front: most recently touched
    const lim: Limits
    ghost var rows: seq<Row>           // what the entries of lru hold
    ghost var closures: set<Closure>   // every closure handed out
    ghost var holders: map<Entry, Closure>

    ghost predicate Linked()
      reads this`entries, this`lru, this`rows, lru
    {
      Links(entries, lru) && |lru| <= lim.capacity && Holds(lru, rows)
    }

    predicate Stored(e: Entry)
      reads this`entries
    {
      e.key in entries && entries[e.key] == e
    }

    /** Each unspent closure holds its own entry and each held entry has its own unspent closure. */
    ghost predicate Paired()
      reads this`entries, this`closures, this`holders, closures
    {
      && (forall e :: e in holders ==>
            Stored(e) && holders[e] in closures && holders[e].entry == e && !holders[e].spent)
      && (forall c :: c in closures && !c.spent ==> c.entry in holders && holders[c.entry] == c)
    }

    /** The busy entries are the held ones. */
    ghost predicate BusyIsHeld()
      reads this`entries, this`holders, entries.Values
    {
      forall k :: k in entries ==> (entries[k].busy <==> entries[k] in holders)
    }

    ghost predicate Valid()
      reads this, lru, entries.Values, closures
    {
      Linked() && Paired() && BusyIsHeld()
    }

    constructor (lim: Limits)
      ensures Valid() && rows == [] && closures == {} && this.lim == lim
    {
      this.lim := lim;
      entries, lru, rows, closures, holders := map[], [], [], {}, map[];
    }

    /** list.Remove and the delete from the map. */
    method Remove(i: nat)
      requires Linked() && i < |lru|
      modifies this`lru, this`entries, this`rows
      ensures Linked()
      ensures lru == Without(old(lru), i) && rows == Without(old(rows), i)
      ensures old(Stored(lru[i])) && entries == old(entries) - {old(lru)[i].key}
    {
      RemoveLinks(entries, lru, i);
      HoldsWithout(lru, rows, i);
      entries := entries - {lru[i].key};
      lru, rows := Without(lru, i), Without(rows, i);
    }

    /** list.PushFront and the new map entry. */
    method Insert(e: Entry)
      requires Linked() && e.key !in entries && |lru| < lim.capacity
      modifies this`lru, this`entries, this`rows
      ensures Linked()
      ensures entries == old(entries)[e.key := e] && rows == [e.AsRow()] + old(rows)
    {
      InsertLinks(entries, lru, e);
      lru, rows := [e] + lru, [e.AsRow()] + rows;
      entries := entries[e.key := e];
    }

    /** list.MoveToFront, for an entry whose fields may have changed. */
    method MoveToFront(e: Entry, i: nat)
      requires Links(entries, lru) && |lru| <= lim.capacity && i < |lru| == |rows| && lru[i] == e
      requires forall j :: 0 <= j < |lru| && j != i ==> lru[j].AsRow() == rows[j] && lru[j] != e
      modifies this`lru, this`rows
      ensures Linked() && rows == [e.AsRow()] + Without(old(rows), i)
    {
      MoveLinks(entries, lru, i);
      HoldsMoved(lru, rows, i);
      lru, rows := [e] + Without(lru, i), [e.AsRow()] + Without(rows, i);
    }

    /** The place of an entry in the list. */
    method IndexOf(e: Entry) returns (i: nat)
      requires e in lru
      ensures i < |lru| && lru[i] == e
    {
      i :| i < |lru| && lru[i] == e;
    }

    /** Sets the fields of a stored entry and moves it to the front, as both acquire and the
        release closure do. */
    method Touch(e: Entry, busy: bool, now: int)
      requires Linked() && Stored(e)
      requires forall k :: k in entries ==> ((if k == e.key then busy else entries[k].busy) <==> entries[k] in holders)
      modifies this`lru, this`rows, e
      ensures Linked() && BusyIsHeld()
      ensures rows == TouchedRows(old(rows), e.key, busy, now)
    {
      Position(entries, lru, rows, e);
      var i := IndexOf(e);
      e.busy, e.touched := busy, now;
      MoveToFront(e, i);
    }

    /** The sweep loop at the head of acquire, back to front. */
    method Expire(now: int)
      requires Linked()
      modifies this`lru, this`entries, this`rows
      ensures Linked()
      ensures lru == Kept(old(lru), old(rows), now, lim.ttl)
      ensures rows == Sweep(old(rows), now, lim.ttl)
    {
      ghost var all, was := lru, rows;
      var i := |lru|;
      while i > 0
        invariant 0 <= i <= |all|
        invariant lru == all[..i] + Kept(all[i..], was[i..], now, lim.ttl)
        invariant rows == was[..i] + Sweep(was[i..], now, lim.ttl)
        invariant Linked()
      {
        i := i - 1;
        KeptStep(all, was, i, now, lim.ttl);
        SweepStep(was, i, now, lim.ttl);
        var v := lru[i];
        assert was[i] == v.AsRow();
        if !v.busy && now - v.touched >= lim.ttl {
          Remove(i);
        }
      }
      assert all[0..] == all && was[0..] == was;
    }

    /** The sweep drops no leased entry. */
    method SweepStale(now: int)
      requires Valid()
      modifies this`lru, this`entries, this`rows
      ensures Valid()
      ensures rows == Sweep(old(rows), now, lim.ttl)
      ensures forall k :: k in entries ==> k in old(entries) && entries[k] == old(entries)[k]
    {
      ghost var m, es, was := entries, lru, rows;
      Expire(now);
      SweptMap(m, es, was, entries, now, lim.ttl);
    }

    /** The scan for an idle entry, back to front; -1 when every entry is busy. */
    method Victim() returns (i: int)
      requires Holds(lru, rows)
      ensures i == LastIdle(rows)
    {
      i := |lru| - 1;
      assert rows[..|rows|] == rows;
      while i >= 0 && lru[i].busy
        invariant -1 <= i < |lru|
        invariant LastIdle(rows) == LastIdle(rows[..i + 1])
      {
        assert rows[..i + 1][..i] == rows[..i];
        i := i - 1;
      }
    }

    /** Drops the eviction victim when the store is full; false when there is none. */
    method MakeRoom() returns (ok: bool)
      requires Valid()
      modifies this`lru, this`entries, this`rows
      ensures Valid()
      ensures (ok, rows) == RoomRows(old(rows), lim.capacity)
      ensures ok ==> |lru| < lim.capacity
      ensures forall k :: k in entries ==> k in old(entries) && entries[k] == old(entries)[k]
    {
      LinksSize(entries, lru);
      if |entries| < lim.capacity { return true; }
      var v := Victim();
      if v < 0 { return false; }
      assert !lru[v].busy;
      Remove(v);
      ok := true;
    }

    /** A new idle entry under an unused key. */
    method Seat(key: Key, uuid: string) returns (e: Entry)
      requires Valid() && key !in entries && |lru| < lim.capacity
      modifies this`lru, this`entries, this`rows
      ensures Valid() && fresh(e) && e.key == key && e.id == uuid && !e.busy
      ensures entries == old(entries)[key := e] && rows == [Row(key, uuid, 0, false)] + old(rows)
    {
      e := new Entry(key, uuid);
      assert e !in holders;
      Insert(e);
    }

    /** The middle of acquire: an idle entry stored under `key`, old or new, or null when the key is
        busy or there is no room. */
    method Locate(key: Key, uuid: string) returns (e: Entry?)
      requires Valid()
      modifies this`lru, this`entries, this`rows
      ensures Valid()
      ensures e != null ==> e.key == key && Stored(e) && !e.busy
      ensures forall x :: x in entries.Values ==> x in old(entries).Values || x == e
      ensures e != null ==> e in old(entries).Values || fresh(e)
      ensures (if e == null then None else Some(e.id), rows) == SeatRows(old(rows), lim.capacity, key, uuid)
    {
      KeyInMap(entries, lru, rows, key);
      if key in entries {
        e := entries[key];
        if e.busy { e := null; }
      } else {
        var room := MakeRoom();
        if !room { return null; }
        e := Seat(key, uuid);
      }
    }

    /** A new closure holds its entry. */
    ghost method Pair(e: Entry, c: Closure)
      requires Paired() && Stored(e) && e !in holders
      requires c !in closures && c.entry == e && !c.spent
      modifies this`closures, this`holders
      ensures Paired() && closures == old(closures) + {c} && holders == old(holders)[e := c]
    {
      closures := closures + {c};
      holders := holders[e := c];
    }

    /** A closure is used up and lets its entry go. */
    method Spend(c: Closure)
      requires Paired() && c in closures && !c.spent
      modifies this`holders, c`spent
      ensures Paired() && c.spent && holders == old(holders) - {c.entry}
    {
      c.spent := true;
      holders := holders - {c.entry};
    }

    /** The end of acquire: an idle stored entry becomes busy and gets a closure. */
    method OpenLease(e: Entry, now: int) returns (c: Closure)
      requires Valid() && Stored(e) && !e.busy
      modifies this`lru, this`rows, this`closures, this`holders, e
      ensures Valid()
      ensures rows == TouchedRows(old(rows), e.key, true, now)
      ensures fresh(c) && !c.spent && c.entry == e && closures == old(closures) + {c}
    {
      c := new Closure(e);
      Pair(e, c);
      Distinct(entries, lru);
      Touch(e, true, now);
    }

    /** acquire: the rows left are those of AcquireRows, and on success the caller gets the session
        id and a fresh closure on the entry now stored under `key`. */
    method Acquire(key: Key, now: int, uuid: string) returns (got: Option<string>, release: Closure?)
      requires Valid()
      modifies this, entries.Values
      ensures Valid()
      ensures (got, rows) == AcquireRows(old(rows), lim, key, now, uuid)
      ensures got.None? ==> release == null && closures == old(closures)
      ensures got.Some? ==>
        && release != null && fresh(release) && !release.spent && closures == old(closures) + {release}
        && release.entry.key == key && release.entry.id == got.value && Stored(release.entry)
      ensures forall e :: e in entries.Values ==> e in old(entries).Values || fresh(e)
    {
      SweepStale(now);
      ClaimBySeat(rows, lim.capacity, key, now, uuid);
      var e := Locate(key, uuid);
      if e == null { return None, null; }
      var c := OpenLease(e, now);
      got, release := Some(e.id), c;
    }

    /** The body inside once.Do. */
    method Close(c: Closure, now: int)
      requires Valid() && c in closures && !c.spent
      modifies this`lru, this`rows, this`holders, c, c.entry
      ensures Valid() && c.spent
      ensures rows == ReleaseRows(old(rows), c.entry.key, now)
    {
      Spend(c);
      Distinct(entries, lru);
      Touch(c.entry, false, now);
    }

    /** Calling a closure: the first call makes its entry idle and freshly touched; any later call
        changes nothing. */
    method Release(c: Closure, now: int)
      requires Valid() && c in closures
      modifies this`lru, this`rows, this`holders, c, c.entry
      ensures Valid() && closures == old(closures) && c.spent
      ensures rows == if old(c.spent) then old(rows) else ReleaseRows(old(rows), c.entry.key, now)
      ensures old(c.spent) ==> unchanged(this) && unchanged(c.entry)
    {
      if !c.spent { Close(c, now); }
    }
  }
}
