/**
 * The room table of `RoomManager`, as values: players keyed by id (a `Map`
 * in the source, a sequence in insertion order here), the capacity and start
 * tests, the statistics, the cleanup rule and the backup format.
 */
module RoomRules {
  import opened Cards
  import opened State

  /** `isRoomFull`: six players fill a room. */
  const MaxPlayers: nat := 6
  /** `canStartGame`: two players are needed. */
  const MinPlayers: nat := 2
  /** A room without activity for 30 minutes is removed. */
  const InactiveAfter: int := 30 * 60 * 1000
  /** An empty room without activity for 5 minutes is removed. */
  const EmptyAfter: int := 5 * 60 * 1000

  // ----- players by id: Map.set and Map.delete -----

  /**
   * `players.set(p.id, p)`: a player with that id is replaced where it sits,
   * otherwise the new player goes last.
   */
  function PutPlayer(ps: seq<Player>, p: Player): (qs: seq<Player>)
    ensures Find(qs, p.id) == Some(if Find(ps, p.id).Some? then Find(ps, p.id).value else |ps|)
    ensures Find(qs, p.id).Some? && qs[Find(qs, p.id).value] == p
    ensures |qs| == |ps| + (if Find(ps, p.id).None? then 1 else 0)
    ensures forall j :: 0 <= j < |ps| && ps[j].id != p.id ==> qs[j] == ps[j]
  {
    match Find(ps, p.id)
    case Some(j) =>
      FindFirst(ps[j := p], p.id, j);
      ps[j := p]
    case None =>
      FindFirst(ps + [p], p.id, |ps|);
      ps + [p]
  }

  /** Setting a key leaves every other key where it was, with the same player. */
  lemma PutPlayerKeepsOthers(ps: seq<Player>, p: Player, id: PlayerId)
    requires id != p.id
    ensures Find(PutPlayer(ps, p), id) == Find(ps, id)
  {
    var qs := PutPlayer(ps, p);
    match Find(ps, id)
    case Some(k) =>
      assert qs[k] == ps[k];
      assert forall j :: 0 <= j < k ==> qs[j].id != id by {
        forall j | 0 <= j < k ensures qs[j].id != id {
          assert qs[j] == ps[j] || qs[j] == p;
        }
      }
      FindFirst(qs, id, k);
    case None =>
      assert forall j :: 0 <= j < |qs| ==> qs[j].id != id by {
        forall j | 0 <= j < |qs| ensures qs[j].id != id {
          assert j < |ps| ==> qs[j] == ps[j] || qs[j] == p;
        }
      }
  }

  /** The first seat holding an id is the one `Find` reports. */
  lemma {:induction false} FindFirst(ps: seq<Player>, id: PlayerId, k: nat)
    requires k < |ps| && ps[k].id == id
    requires forall j :: 0 <= j < k ==> ps[j].id != id
    ensures Find(ps, id) == Some(k)
    decreases k
  {
    if k > 0 {
      FindFirst(ps[1..], id, k - 1);
    }
  }

  /** Replacing a seat by a player with the same id finds every id where it was. */
  lemma FindAfterSet(ps: seq<Player>, i: nat, p: Player, id: PlayerId)
    requires i < |ps| && p.id == ps[i].id
    ensures Find(ps[i := p], id) == Find(ps, id)
  {
    var qs := ps[i := p];
    assert forall k :: 0 <= k < |qs| ==> qs[k].id == ps[k].id;
    match Find(ps, id)
    case Some(k) => FindFirst(qs, id, k);
    case None =>
  }

  /** Keys stay unique under `set`. */
  lemma PutPlayerDistinct(ps: seq<Player>, p: Player)
    requires DistinctIds(ps)
    ensures DistinctIds(PutPlayer(ps, p))
  {
  }

  /** `players.delete(id)`: the seat holding the id goes, the order of the rest is kept. */
  function DeletePlayer(ps: seq<Player>, id: PlayerId): (qs: seq<Player>)
    ensures |qs| == |ps| - (if Find(ps, id).Some? then 1 else 0)
    ensures Find(ps, id).None? ==> qs == ps
  {
    match Find(ps, id)
    case Some(j) => ps[..j] + ps[j + 1..]
    case None => ps
  }

  /** After `delete`, the key is gone and every other key still finds the same player. */
  lemma DeletePlayerRemoves(ps: seq<Player>, id: PlayerId, other: PlayerId)
    requires DistinctIds(ps) && other != id
    ensures DistinctIds(DeletePlayer(ps, id))
    ensures Find(DeletePlayer(ps, id), id).None?
    ensures var qs := DeletePlayer(ps, id);
      Find(qs, other).Some? == Find(ps, other).Some?
      && (Find(qs, other).Some? ==> qs[Find(qs, other).value] == ps[Find(ps, other).value])
  {
    var qs := DeletePlayer(ps, id);
    match Find(ps, id)
    case None =>
    case Some(j) =>
      assert forall k :: 0 <= k < |qs| ==> qs[k] == if k < j then ps[k] else ps[k + 1];
      assert DistinctIds(qs);
      match Find(ps, other)
      case None =>
        assert forall k :: 0 <= k < |qs| ==> qs[k].id != other;
      case Some(m) =>
        var m' := if m < j then m else m - 1;
        assert qs[m'] == ps[m];
        FindInDistinct(qs, m');
  }

  // ----- rooms by code: Map.set and Map.delete -----

  /** `rooms.get(code)`: the position of the room with that code in table order. */
  function FindRoom(rs: seq<RoomValue>, code: string): (o: Option<nat>)
    ensures o.Some? ==> o.value < |rs| && rs[o.value].code == code
    ensures o.Some? ==> forall k :: 0 <= k < o.value ==> rs[k].code != code
    ensures o.None? ==> forall k :: 0 <= k < |rs| ==> rs[k].code != code
  {
    if rs == [] then None
    else if rs[0].code == code then Some(0)
    else match FindRoom(rs[1..], code)
      case None => None
      case Some(k) => Some(k + 1)
  }

  /**
   * `rooms.set(r.code, r)`: a room already under that code is replaced where
   * it stands, otherwise the new room goes last; every other room stays put,
   * and a table whose codes are distinct keeps them distinct.
   */
  function PutRoom(rs: seq<RoomValue>, r: RoomValue): (qs: seq<RoomValue>)
    ensures FindRoom(qs, r.code).Some? && qs[FindRoom(qs, r.code).value] == r
    ensures |qs| == |rs| + (if FindRoom(rs, r.code).None? then 1 else 0)
    ensures forall k :: 0 <= k < |rs| && rs[k].code != r.code ==> qs[k] == rs[k]
    ensures DistinctCodes(rs) ==> DistinctCodes(qs)
  {
    match FindRoom(rs, r.code)
    case Some(j) =>
      var qs := rs[j := r];
      assert FindRoom(qs, r.code) == Some(j) by {
        FindRoomFirst(qs, r.code, j);
      }
      qs
    case None =>
      var qs := rs + [r];
      assert FindRoom(qs, r.code) == Some(|rs|) by {
        FindRoomFirst(qs, r.code, |rs|);
      }
      qs
  }

  /** The first room with a code is the one `FindRoom` reports. */
  lemma {:induction false} FindRoomFirst(rs: seq<RoomValue>, code: string, j: nat)
    requires j < |rs| && rs[j].code == code
    requires forall k :: 0 <= k < j ==> rs[k].code != code
    ensures FindRoom(rs, code) == Some(j)
    decreases j
  {
    if j > 0 {
      FindRoomFirst(rs[1..], code, j - 1);
    }
  }

  /** In a table of distinct codes, each room is found at its own position. */
  lemma FindRoomAt(rs: seq<RoomValue>, j: nat)
    requires DistinctCodes(rs) && j < |rs|
    ensures FindRoom(rs, rs[j].code) == Some(j)
  {
    FindRoomFirst(rs, rs[j].code, j);
  }

  // ----- isRoomFull / canStartGame -----

  predicate IsRoomFull(r: RoomValue)
  {
    |r.players| >= MaxPlayers
  }

  predicate CanStartGame(r: RoomValue)
  {
    |r.players| >= MinPlayers && r.gameState.status == Waiting
  }

  /** `createRoom(code, hostId)`: no player yet (the host is not added), a fresh game state, unlocked. */
  function NewRoom(code: string, hostId: PlayerId, now: int): RoomValue
  {
    RoomValue(code, hostId, [], FreshGameState, false, now, now)
  }

  /** A new room takes players and cannot start until two have joined. */
  lemma NewRoomWaits(code: string, hostId: PlayerId, now: int, p: Player, q: Player)
    requires p.id != q.id
    ensures var r := NewRoom(code, hostId, now);
      && !IsRoomFull(r) && !CanStartGame(r)
      && !CanStartGame(r.(players := PutPlayer(r.players, p)))
      && CanStartGame(r.(players := PutPlayer(PutPlayer(r.players, p), q)))
  {
    var one := PutPlayer([], p);
    assert one == [p];
    assert Find(one, q.id).None?;
  }

  // ----- getRoomStats -----

  datatype RoomStats = RoomStats(totalRooms: nat, activeRooms: nat, waitingRooms: nat, playingRooms: nat, totalPlayers: nat)

  /** Rooms with at least one player. */
  function ActiveRooms(rs: seq<RoomValue>): (n: nat)
    ensures n <= |rs| && n <= PlayerTotal(rs)
  {
    if rs == [] then 0 else ActiveRooms(rs[..|rs| - 1]) + (if |rs[|rs| - 1].players| > 0 then 1 else 0)
  }

  /** Rooms whose game has the given status. */
  function RoomsWith(rs: seq<RoomValue>, st: Status): (n: nat)
    ensures n <= |rs|
  {
    if rs == [] then 0 else RoomsWith(rs[..|rs| - 1], st) + (if rs[|rs| - 1].gameState.status == st then 1 else 0)
  }

  /** Players over all rooms. */
  function PlayerTotal(rs: seq<RoomValue>): nat
  {
    if rs == [] then 0 else PlayerTotal(rs[..|rs| - 1]) + |rs[|rs| - 1].players|
  }

  /** `getRoomStats()` over the rooms in table order. */
  function Stats(rs: seq<RoomValue>): (s: RoomStats)
    ensures s.totalRooms == |rs|
    ensures s.activeRooms <= s.totalRooms && s.activeRooms <= s.totalPlayers
    ensures s.waitingRooms <= s.totalRooms && s.playingRooms <= s.totalRooms
  {
    RoomStats(|rs|, ActiveRooms(rs), RoomsWith(rs, Waiting), RoomsWith(rs, Playing), PlayerTotal(rs))
  }

  /** Every room is waiting or playing, so the two counts add up to all rooms. */
  lemma {:induction false} StatusSplit(rs: seq<RoomValue>)
    ensures Stats(rs).waitingRooms + Stats(rs).playingRooms == Stats(rs).totalRooms
    decreases |rs|
  {
    if rs != [] {
      StatusSplit(rs[..|rs| - 1]);
    }
  }

  /** Rooms that are never overfilled hold at most six players each. */
  lemma {:induction false} StatsBound(rs: seq<RoomValue>)
    requires forall k :: 0 <= k < |rs| ==> |rs[k].players| <= MaxPlayers
    ensures Stats(rs).totalPlayers <= MaxPlayers * Stats(rs).totalRooms
    decreases |rs|
  {
    if rs != [] {
      StatsBound(rs[..|rs| - 1]);
    }
  }

  // ----- cleanupInactiveRooms -----

  /** Idle longer than 30 minutes, or empty and idle longer than 5. */
  predicate Stale(r: RoomValue, now: int)
  {
    var idle := now - r.lastActivity;
    idle > InactiveAfter || (|r.players| == 0 && idle > EmptyAfter)
  }

  /** The codes the `forEach` marks, in table order. */
  function StaleCodes(rs: seq<RoomValue>, now: int): (codes: seq<string>)
    ensures |codes| <= |rs|
  {
    if rs == [] then []
    else StaleCodes(rs[..|rs| - 1], now) + (if Stale(rs[|rs| - 1], now) then [rs[|rs| - 1].code] else [])
  }

  /** `rooms.delete(code)` for each marked code. */
  function DeleteRooms(rs: seq<RoomValue>, codes: seq<string>): (qs: seq<RoomValue>)
    ensures |qs| <= |rs|
  {
    if rs == [] then []
    else DeleteRooms(rs[..|rs| - 1], codes) + (if rs[|rs| - 1].code in codes then [] else [rs[|rs| - 1]])
  }

  /** Deleting no code leaves the table as it was. */
  lemma {:induction false} DeleteNothing(rs: seq<RoomValue>)
    ensures DeleteRooms(rs, []) == rs
    decreases |rs|
  {
    if rs != [] {
      DeleteNothing(rs[..|rs| - 1]);
      assert rs[..|rs| - 1] + [rs[|rs| - 1]] == rs;
    }
  }

  /** Deleting one more code deletes it from what the earlier deletions left. */
  lemma {:induction false} DeleteRoomsSnoc(rs: seq<RoomValue>, codes: seq<string>, c: string)
    ensures DeleteRooms(rs, codes + [c]) == DeleteRooms(DeleteRooms(rs, codes), [c])
    decreases |rs|
  {
    if rs != [] {
      var n := |rs| - 1;
      DeleteRoomsSnoc(rs[..n], codes, c);
      var kept := DeleteRooms(rs[..n], codes);
      assert (rs[n].code in codes + [c]) <==> (rs[n].code in codes || rs[n].code == c);
      if rs[n].code !in codes {
        var full := kept + [rs[n]];
        assert full[..|kept|] == kept;
        assert DeleteRooms(rs, codes) == full;
        assert DeleteRooms(full, [c]) == DeleteRooms(kept, [c]) + (if rs[n].code in [c] then [] else [rs[n]]);
      } else {
        assert DeleteRooms(rs, codes) == kept + [] == kept;
        assert DeleteRooms(rs, codes + [c]) == DeleteRooms(rs[..n], codes + [c]) + [] == DeleteRooms(kept, [c]);
      }
    }
  }

  /** A `Map` holds each key once. */
  ghost predicate DistinctCodes(rs: seq<RoomValue>)
  {
    forall i, j :: 0 <= i < j < |rs| ==> rs[i].code != rs[j].code
  }

  /** The table as the sweep leaves it: the rooms that are not stale, in table order. */
  function Survivors(rs: seq<RoomValue>, now: int): (qs: seq<RoomValue>)
    ensures forall k :: 0 <= k < |qs| ==> !Stale(qs[k], now) && qs[k] in rs
    ensures forall k :: 0 <= k < |rs| && !Stale(rs[k], now) ==> rs[k] in qs
  {
    if rs == [] then []
    else
      var qs := Survivors(rs[..|rs| - 1], now);
      assert forall k :: 0 <= k < |rs| - 1 ==> rs[..|rs| - 1][k] == rs[k];
      qs + (if Stale(rs[|rs| - 1], now) then [] else [rs[|rs| - 1]])
  }

  /** A code is marked exactly when the room holding it is stale. */
  lemma {:induction false} StaleCodesExact(rs: seq<RoomValue>, now: int, k: nat)
    requires DistinctCodes(rs) && k < |rs|
    ensures rs[k].code in StaleCodes(rs, now) <==> Stale(rs[k], now)
    decreases |rs|
  {
    var n := |rs| - 1;
    var init := rs[..n];
    assert forall x :: 0 <= x < n ==> init[x] == rs[x];
    if k < n {
      StaleCodesExact(init, now, k);
    }
    StaleCodesFrom(init, now);
  }

  /** Every marked code belongs to some room of the table. */
  lemma {:induction false} StaleCodesFrom(rs: seq<RoomValue>, now: int)
    ensures forall c :: c in StaleCodes(rs, now) ==> exists k :: 0 <= k < |rs| && rs[k].code == c && Stale(rs[k], now)
    decreases |rs|
  {
    if rs != [] {
      var n := |rs| - 1;
      StaleCodesFrom(rs[..n], now);
      assert forall x :: 0 <= x < n ==> rs[..n][x] == rs[x];
    }
  }

  /** Deleting the marked codes leaves exactly the rooms that are not stale. */
  lemma {:induction false} CleanupKeepsLive(rs: seq<RoomValue>, now: int, m: nat)
    requires DistinctCodes(rs) && m <= |rs|
    ensures DeleteRooms(rs[..m], StaleCodes(rs, now)) == Survivors(rs[..m], now)
    decreases m
  {
    if m > 0 {
      var pre := rs[..m];
      assert pre[..m - 1] == rs[..m - 1];
      CleanupKeepsLive(rs, now, m - 1);
      StaleCodesExact(rs, now, m - 1);
    }
  }

  /** `cleanupInactiveRooms(now)` on the table: mark, then delete. */
  function Cleanup(rs: seq<RoomValue>, now: int): seq<RoomValue>
  {
    DeleteRooms(rs, StaleCodes(rs, now))
  }

  /**
   * The sweep removes exactly the stale rooms: a room used in the last five
   * minutes always stays, an occupied one stays until half an hour has passed.
   */
  lemma CleanupRemovesStale(rs: seq<RoomValue>, now: int)
    requires DistinctCodes(rs)
    ensures Cleanup(rs, now) == Survivors(rs, now)
    ensures forall k :: 0 <= k < |rs| && now - rs[k].lastActivity <= EmptyAfter ==> rs[k] in Cleanup(rs, now)
    ensures forall k :: 0 <= k < |rs| && |rs[k].players| > 0 && now - rs[k].lastActivity <= InactiveAfter ==>
      rs[k] in Cleanup(rs, now)
    ensures forall q :: q in Cleanup(rs, now) ==> !Stale(q, now)
  {
    CleanupKeepsLive(rs, now, |rs|);
    assert rs[..|rs|] == rs;
  }

  // ----- exportRoomData / importRoomData -----

  /** The backup record: everything but the lock. */
  datatype RoomData = RoomData(code: string, hostId: PlayerId, players: seq<Player>, gameState: GameState, createdAt: int, lastActivity: int)

  /** `exportRoomData`: the players as a list of entries in table order, the game state copied. */
  function Export(r: RoomValue): (d: RoomData)
    ensures d.players == r.players && d.gameState == r.gameState
  {
    RoomData(r.code, r.hostId, r.players, r.gameState, r.createdAt, r.lastActivity)
  }

  /** `new Map(players.map(p => [p.id, p]))`: later entries with a repeated id replace earlier ones in place. */
  function FromEntries(ps: seq<Player>): (qs: seq<Player>)
    ensures |qs| <= |ps|
  {
    if ps == [] then [] else PutPlayer(FromEntries(ps[..|ps| - 1]), ps[|ps| - 1])
  }

  /** The map built from any list holds each id once. */
  lemma {:induction false} FromEntriesDistinct(ps: seq<Player>)
    ensures DistinctIds(FromEntries(ps))
    decreases |ps|
  {
    if ps != [] {
      FromEntriesDistinct(ps[..|ps| - 1]);
      PutPlayerDistinct(FromEntries(ps[..|ps| - 1]), ps[|ps| - 1]);
    }
  }

  /** A list whose ids are already unique comes back unchanged. */
  lemma {:induction false} FromEntriesUnique(ps: seq<Player>)
    requires DistinctIds(ps)
    ensures FromEntries(ps) == ps
    decreases |ps|
  {
    if ps != [] {
      var n := |ps| - 1;
      FromEntriesUnique(ps[..n]);
      assert Find(ps[..n], ps[n].id).None?;
      assert ps[..n] + [ps[n]] == ps;
    }
  }

  /** `importRoomData(data)`: unlocked, with activity stamped now. */
  function Import(d: RoomData, now: int): (r: RoomValue)
    ensures !r.lock && r.lastActivity == now && r.code == d.code
  {
    RoomValue(d.code, d.hostId, FromEntries(d.players), d.gameState, false, d.createdAt, now)
  }

  /** Importing a backup gives the room back, unlocked and with fresh activity. */
  lemma ImportExport(r: RoomValue, now: int)
    requires DistinctIds(r.players)
    ensures Import(Export(r), now) == r.(lock := false, lastActivity := now)
  {
    FromEntriesUnique(r.players);
  }

  /** Any imported room survives another backup and restore unchanged but for its activity time. */
  lemma ImportStable(d: RoomData, t1: int, t2: int)
    ensures Import(Export(Import(d, t1)), t2) == Import(d, t2)
  {
    FromEntriesDistinct(d.players);
    ImportExport(Import(d, t1), t2);
  }
}
