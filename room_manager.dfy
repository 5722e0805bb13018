/**
 * `RoomManager` as an object: the `Map` of rooms by code, kept as a map
 * together with its insertion order (the order `forEach` and `values()`
 * visit), with the methods that create, fill, empty, sweep, back up and
 * restore rooms. Its meaning is the table of room values `Table()`, on which
 * `RoomRules` states the rules.
 */
module Rooms {
  import opened Cards
  import opened State
  import opened RoomRules
  import opened Engine

  /** The values of the rooms under the codes `ks`, in that order. */
  function Ordered(m: map<string, RoomValue>, ks: seq<string>): (vs: seq<RoomValue>)
    requires forall k :: k in ks ==> k in m
    ensures |vs| == |ks| && forall i {:trigger vs[i]} :: 0 <= i < |ks| ==> vs[i] == m[ks[i]]
  {
    if ks == [] then [] else Ordered(m, ks[..|ks| - 1]) + [m[ks[|ks| - 1]]]
  }

  /** The insertion order once `delete(c)` has run. */
  function RemoveKey(ks: seq<string>, c: string): (qs: seq<string>)
    ensures forall k :: k in qs <==> k in ks && k != c
    ensures |qs| <= |ks|
  {
    if ks == [] then []
    else RemoveKey(ks[..|ks| - 1], c) + (if ks[|ks| - 1] == c then [] else [ks[|ks| - 1]])
  }

  /** The codes listed in `ks`, as a set. */
  ghost function CodeSet(ks: seq<string>): set<string>
  {
    set c | c in ks
  }

  /** Each code appears once in the insertion order. */
  ghost predicate Distinct(ks: seq<string>)
  {
    forall i, j :: 0 <= i < j < |ks| ==> ks[i] != ks[j]
  }

  /** A new key appended keeps the order free of duplicates. */
  lemma DistinctSnoc(ks: seq<string>, c: string)
    requires Distinct(ks) && c !in ks
    ensures Distinct(ks + [c])
  {
  }

  /** Every room is stored under its own code. */
  ghost predicate Keyed(m: map<string, RoomValue>)
  {
    forall c :: c in m ==> m[c].code == c
  }

  /** Deleting a key from the map and from the order deletes that code from the table. */
  lemma {:induction false} OrderedRemove(m: map<string, RoomValue>, ks: seq<string>, c: string)
    requires (forall k :: k in ks ==> k in m) && Keyed(m)
    ensures Ordered(m - {c}, RemoveKey(ks, c)) == DeleteRooms(Ordered(m, ks), [c])
    decreases |ks|
  {
    if ks != [] {
      var n := |ks| - 1;
      var init, x := ks[..n], ks[n];
      assert forall k :: k in init ==> k in ks;
      OrderedRemove(m, init, c);
      var before := Ordered(m, init);
      var rs := Ordered(m, ks);
      assert rs == before + [m[x]];
      assert rs[..n] == before;
      assert m[x].code == x;
      var rest := RemoveKey(init, c);
      var m' := m - {c};
      if x == c {
        assert RemoveKey(ks, c) == rest + [] == rest;
        assert DeleteRooms(rs, [c]) == DeleteRooms(before, [c]) + [];
      } else {
        var full := rest + [x];
        assert RemoveKey(ks, c) == full;
        assert full[..|rest|] == rest;
        assert Ordered(m', full) == Ordered(m', rest) + [m'[x]];
        assert DeleteRooms(rs, [c]) == DeleteRooms(before, [c]) + [m[x]];
      }
    }
  }

  /** A table built from a keyed map and a duplicate-free order has distinct codes, each at its own key's place. */
  lemma OrderedCodes(m: map<string, RoomValue>, ks: seq<string>)
    requires (forall k :: k in ks ==> k in m) && Keyed(m) && Distinct(ks)
    ensures forall i :: 0 <= i < |ks| ==> Ordered(m, ks)[i].code == ks[i]
    ensures DistinctCodes(Ordered(m, ks))
  {
    var rs := Ordered(m, ks);
    assert forall i :: 0 <= i < |ks| ==> rs[i].code == ks[i];
  }

  /** Setting a key that is already present replaces its room where it stands. */
  lemma OrderedSet(m: map<string, RoomValue>, ks: seq<string>, j: nat, v: RoomValue)
    requires (forall k :: k in ks ==> k in m) && Keyed(m) && Distinct(ks)
    requires j < |ks| && v.code == ks[j]
    ensures forall k :: k in ks ==> k in m[ks[j] := v]
    ensures Ordered(m[ks[j] := v], ks) == PutRoom(Ordered(m, ks), v)
  {
    var rs := Ordered(m, ks);
    OrderedCodes(m, ks);
    FindRoomAt(rs, j);
    assert PutRoom(rs, v) == rs[j := v];
  }

  /** Setting a new key puts its room last. */
  lemma OrderedAppend(m: map<string, RoomValue>, ks: seq<string>, v: RoomValue)
    requires (forall k :: k in ks ==> k in m) && Keyed(m) && v.code !in ks
    ensures forall k :: k in ks + [v.code] ==> k in m[v.code := v]
    ensures Ordered(m[v.code := v], ks + [v.code]) == PutRoom(Ordered(m, ks), v)
  {
    var rs := Ordered(m, ks);
    assert forall i :: 0 <= i < |ks| ==> rs[i].code == ks[i];
    assert FindRoom(rs, v.code).None?;
    assert PutRoom(rs, v) == rs + [v];
  }

  /** The table after a deletion, from the map and order before it. */
  lemma DeleteChain(t: seq<RoomValue>, m: map<string, RoomValue>, ks: seq<string>, c: string,
                    m': map<string, RoomValue>, ks': seq<string>)
    requires (forall k :: k in ks ==> k in m) && Keyed(m) && t == Ordered(m, ks)
    requires m' == m - {c} && ks' == RemoveKey(ks, c)
    ensures forall k :: k in ks' ==> k in m'
    ensures Ordered(m', ks') == DeleteRooms(t, [c])
  {
    OrderedRemove(m, ks, c);
  }

  /** Deleting the `k`-th marked code after the first `k` deletes the first `k + 1`. */
  lemma NextChain(t: seq<RoomValue>, r0: map<string, Room>, marked: seq<string>, k: nat)
    requires k < |marked|
    ensures DeleteRooms(DeleteRooms(t, marked[..k]), [marked[k]]) == DeleteRooms(t, marked[..k + 1])
    ensures r0 - CodeSet(marked[..k]) - {marked[k]} == r0 - CodeSet(marked[..k + 1])
  {
    assert marked[..k + 1] == marked[..k] + [marked[k]];
    DeleteRoomsSnoc(t, marked[..k], marked[k]);
    assert CodeSet(marked[..k + 1]) == CodeSet(marked[..k]) + {marked[k]};
  }

  class RoomManager {
    var rooms: map<string, Room>
    var order: seq<string>

    /** The map and its insertion order hold the same codes, each once, and each room under its own code. */
    ghost predicate Valid()
      reads this, rooms.Values
    {
      && (forall c :: c in order ==> c in rooms)
      && (forall c :: c in rooms ==> c in order)
      && Distinct(order)
      && (forall c :: c in rooms ==> rooms[c].code == c)
    }

    /** The rooms' current values by code. */
    function Snapshot(): (s: map<string, RoomValue>)
      reads this`rooms, rooms.Values
      ensures s.Keys == rooms.Keys
    {
      map c | c in rooms :: rooms[c].Value()
    }

    /** The rooms' values in insertion order. */
    function Table(): seq<RoomValue>
      reads this, rooms.Values
      requires forall c :: c in order ==> c in rooms
    {
      Ordered(Snapshot(), order)
    }

    /** A map keeps each code once, so the table does. */
    lemma TableCodes()
      requires Valid()
      ensures Keyed(Snapshot())
      ensures DistinctCodes(Table())
      ensures forall k :: 0 <= k < |order| ==> Table()[k].code == order[k]
    {
      OrderedCodes(Snapshot(), order);
    }

    constructor ()
      ensures Valid() && rooms == map[] && Table() == []
    {
      rooms, order := map[], [];
    }

    /** `rooms.set(room.code, room)`. */
    method SetRoom(room: Room)
      requires Valid()
      modifies this
      ensures Valid() && rooms == old(rooms)[room.code := room]
      ensures Table() == PutRoom(old(Table()), room.Value())
    {
      if room.code in rooms {
        ReplaceRoom(room);
      } else {
        AppendRoom(room);
      }
    }

    /** `rooms.set` on a code already present: the entry keeps its place in the order. */
    method ReplaceRoom(room: Room)
      requires Valid() && room.code in rooms
      modifies this
      ensures Valid() && rooms == old(rooms)[room.code := room] && order == old(order)
      ensures Table() == PutRoom(old(Table()), room.Value())
    {
      var code := room.code;
      ghost var m := Snapshot();
      assert Keyed(m);
      ghost var j :| 0 <= j < |order| && order[j] == code;
      rooms := rooms[code := room];
      assert Snapshot() == m[code := room.Value()];
      OrderedSet(m, order, j, room.Value());
    }

    /** `rooms.set` on a new code: the entry goes last in the order. */
    method AppendRoom(room: Room)
      requires Valid() && room.code !in rooms
      modifies this
      ensures Valid() && rooms == old(rooms)[room.code := room] && order == old(order) + [room.code]
      ensures Table() == PutRoom(old(Table()), room.Value())
    {
      var code := room.code;
      ghost var m := Snapshot();
      assert Keyed(m);
      DistinctSnoc(order, code);
      rooms := rooms[code := room];
      order := order + [code];
      assert Snapshot() == m[code := room.Value()];
      OrderedAppend(m, old(order), room.Value());
    }

    /** `createRoom(code, hostId)` at time `now`: a fresh room is set under its code, replacing any room there. */
    method CreateRoom(code: string, hostId: PlayerId, now: int) returns (room: Room)
      requires Valid()
      modifies this
      ensures Valid() && fresh(room) && room.Value() == NewRoom(code, hostId, now)
      ensures rooms == old(rooms)[code := room]
      ensures Table() == PutRoom(old(Table()), NewRoom(code, hostId, now))
    {
      room := new Room(NewRoom(code, hostId, now));
      SetRoom(room);
    }

    /** `deleteRoom(code)`: `rooms.delete(code)`; an absent code changes nothing. */
    method DeleteRoom(code: string)
      requires Valid()
      modifies this
      ensures Valid() && rooms == old(rooms) - {code}
      ensures Table() == DeleteRooms(old(Table()), [code])
    {
      ghost var t := Table();
      ghost var m := Snapshot();
      ghost var ks := order;
      assert Keyed(m) && t == Ordered(m, ks);
      DropEntry(code);
      DropKey(code);
      DeleteChain(t, m, ks, code, Snapshot(), order);
    }

    /** `rooms.delete(code)` on the map. */
    method DropEntry(code: string)
      requires Valid()
      modifies this`rooms
      ensures rooms == old(rooms) - {code}
      ensures Snapshot() == old(Snapshot()) - {code}
      ensures forall c :: c in order ==> c in rooms || c == code
      ensures (forall c :: c in rooms ==> c in order) && Distinct(order)
      ensures forall c :: c in rooms ==> rooms[c].code == c
    {
      rooms := rooms - {code};
    }

    /** `rooms.delete(code)` on the insertion order, once the map has lost the entry. */
    method DropKey(code: string)
      requires forall c :: c in order ==> c in rooms || c == code
      requires (forall c :: c in rooms ==> c in order) && Distinct(order) && code !in rooms
      requires forall c :: c in rooms ==> rooms[c].code == c
      modifies this`order
      ensures Valid() && order == RemoveKey(old(order), code)
      ensures Table() == Ordered(Snapshot(), order)
    {
      RemoveKeyDistinct(order, code);
      order := RemoveKey(order, code);
    }

    /** `addPlayer(room, player)` at time `now`: the player is set under its id and the room's activity stamped. */
    method AddPlayer(room: Room, player: Player, now: int)
      modifies room
      ensures room.Value() == old(room.Value()).(players := PutPlayer(old(room.players), player), lastActivity := now)
      ensures old(Valid()) ==> Valid()
    {
      room.players := PutPlayer(room.players, player);
      room.lastActivity := now;
    }

    /** `removePlayer(room, playerId)` at time `now`: the id is deleted and the room's activity stamped. */
    method RemovePlayer(room: Room, id: PlayerId, now: int)
      modifies room
      ensures room.Value() == old(room.Value()).(players := DeletePlayer(old(room.players), id), lastActivity := now)
      ensures old(Valid()) ==> Valid()
    {
      room.players := DeletePlayer(room.players, id);
      room.lastActivity := now;
    }

    /** `getRoomStats()`: the counts over the table; a room is always waiting or playing. */
    function GetRoomStats(): (s: RoomStats)
      reads this, rooms.Values
      requires Valid()
      ensures s == Stats(Table())
      ensures s.totalRooms == |order| && s.waitingRooms + s.playingRooms == s.totalRooms
    {
      StatusSplit(Table());
      Stats(Table())
    }

    /** The first pass of `cleanupInactiveRooms()`: the codes of the stale rooms, in table order. */
    method MarkStale(now: int) returns (marked: seq<string>)
      requires Valid()
      ensures marked == StaleCodes(Table(), now)
    {
      ghost var t := Table();
      TableCodes();
      marked := [];
      for k := 0 to |order|
        invariant marked == StaleCodes(t[..k], now)
      {
        var code := order[k];
        var room := rooms[code];
        assert t[..k + 1][..k] == t[..k];
        var idle := now - room.lastActivity;
        if idle > InactiveAfter {
          marked := marked + [code];
        } else if |room.players| == 0 && idle > EmptyAfter {
          marked := marked + [code];
        }
      }
      assert t[..|order|] == t;
    }

    /** The second pass: each marked code is deleted in turn. */
    method DeleteAll(marked: seq<string>)
      requires Valid()
      modifies this
      ensures Valid() && rooms == old(rooms) - CodeSet(marked)
      ensures Table() == DeleteRooms(old(Table()), marked)
    {
      ghost var t := Table();
      ghost var r0 := rooms;
      DeleteNothing(t);
      for k := 0 to |marked|
        invariant Valid() && rooms == r0 - CodeSet(marked[..k])
        invariant Table() == DeleteRooms(t, marked[..k])
      {
        DeleteNext(t, r0, marked, k);
      }
      assert marked[..|marked|] == marked;
    }

    /** One step of the second pass: the `k`-th marked code is deleted. */
    method DeleteNext(ghost t: seq<RoomValue>, ghost r0: map<string, Room>, marked: seq<string>, k: nat)
      requires k < |marked| && Valid()
      requires rooms == r0 - CodeSet(marked[..k]) && Table() == DeleteRooms(t, marked[..k])
      modifies this
      ensures Valid() && rooms == r0 - CodeSet(marked[..k + 1])
      ensures Table() == DeleteRooms(t, marked[..k + 1])
    {
      DeleteRoom(marked[k]);
      NextChain(t, r0, marked, k);
    }

    /**
     * `cleanupInactiveRooms()` at time `now`: one pass marks the stale codes
     * in table order, a second deletes them; exactly the stale rooms go.
     */
    method CleanupInactiveRooms(now: int)
      requires Valid()
      modifies this
      ensures Valid() && rooms == old(rooms) - CodeSet(StaleCodes(old(Table()), now))
      ensures Table() == Cleanup(old(Table()), now)
    {
      ghost var t := Table();
      var marked := MarkStale(now);
      DeleteAll(marked);
      assert Table() == Cleanup(t, now);
    }

    /** `exportRoomData(code)`: `null` for an unknown code, otherwise the room's backup record. */
    function ExportRoomData(code: string): (d: Option<RoomData>)
      reads this, rooms.Values
      ensures d.Some? <==> code in rooms
      ensures d.Some? ==> d.value.code == rooms[code].code && d.value.players == rooms[code].players
    {
      if code in rooms then Some(Export(rooms[code].Value())) else None
    }

    /** A backup restored at `now` gives the room back, unlocked and stamped with `now`. */
    lemma ExportThenImport(code: string, now: int)
      requires code in rooms && DistinctIds(rooms[code].players)
      ensures ExportRoomData(code).Some?
      ensures Import(ExportRoomData(code).value, now) == rooms[code].Value().(lock := false, lastActivity := now)
    {
      ImportExport(rooms[code].Value(), now);
    }

    /** `importRoomData(data)` at time `now`: the restored room is set under its code. */
    method ImportRoomData(d: RoomData, now: int) returns (room: Room)
      requires Valid()
      modifies this
      ensures Valid() && fresh(room) && room.Value() == Import(d, now)
      ensures rooms == old(rooms)[d.code := room]
      ensures Table() == PutRoom(old(Table()), Import(d, now))
    {
      var v := Import(d, now);
      room := new Room(v);
      SetRoom(room);
    }
  }

  /** Removing a key keeps the others distinct. */
  lemma {:induction false} RemoveKeyDistinct(ks: seq<string>, c: string)
    requires Distinct(ks)
    ensures Distinct(RemoveKey(ks, c))
    decreases |ks|
  {
    if ks != [] {
      var n := |ks| - 1;
      assert Distinct(ks[..n]);
      RemoveKeyDistinct(ks[..n], c);
      assert ks[n] !in ks[..n];
    }
  }
}
