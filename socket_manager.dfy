/**
 * `SocketManager` as an object: the table of rooms by code, the socket map
 * (socket id to room code and player id) and the engine, with one method per
 * handler. Each handler assigns the room's fields as the source does and is
 * proved against the function of `SocketRules` that gives its meaning; the
 * events it emits are not modelled.
 */
module Sockets {
  import opened Cards
  import opened State
  import opened Rules
  import opened Turns
  import opened RoomRules
  import opened SocketRules
  import opened Engine
  import Actions
  import Responses

  /** The value `socketMap` holds for a socket. */
  datatype Mapping = Mapping(roomCode: string, playerId: PlayerId)

  class SocketManager {
    const engine: GameEngine
    var rooms: map<string, Room>
    var socketMap: map<string, Mapping>

    constructor ()
      ensures fresh(engine) && engine.Sched() == Schedule(map[], [])
      ensures rooms == map[] && socketMap == map[]
    {
      engine := new GameEngine();
      rooms, socketMap := map[], map[];
    }

    /** The room stored under `code`, as a frame. */
    function RoomAt(code: string): set<Room>
      reads this
    {
      if code in rooms then {rooms[code]} else {}
    }

    /** The room a socket is mapped to, as a frame. */
    function RoomOfSocket(socketId: string): set<Room>
      reads this
    {
      if socketId in socketMap then RoomAt(socketMap[socketId].roomCode) else {}
    }

    // ----- handleCreateRoom / handleJoinRoom -----

    /** `handleCreateRoom`: a new room with its creator as host and only player; the socket is mapped to it. */
    method HandleCreateRoom(socketId: string, name: string, code: string, playerId: PlayerId, now: int) returns (room: Room)
      modifies this
      ensures fresh(room) && room.Value() == OnCreateRoom(code, name, playerId, socketId, now)
      ensures rooms == old(rooms)[code := room]
      ensures socketMap == old(socketMap)[socketId := Mapping(code, playerId)]
    {
      room := new Room(RoomValue(code, playerId, [], FreshGameState, false, now, now));
      room.players := [Newcomer(playerId, name, socketId)];
      rooms := rooms[code := room];
      socketMap := socketMap[socketId := Mapping(code, playerId)];
    }

    /** `handleJoinRoom`: join a waiting room with a free seat, or reattach a known player. */
    method HandleJoinRoom(socketId: string, code: string, name: string, claimedId: Option<PlayerId>, freshId: PlayerId)
      returns (j: Joined)
      modifies this, RoomAt(code)
      ensures rooms == old(rooms)
      ensures code !in rooms ==> j == JoinRefused(NoRoom) && socketMap == old(socketMap)
      ensures code in rooms ==>
        && j == OnJoinRoom(old(rooms[code].Value()), name, claimedId, socketId, freshId)
        && rooms[code].Value() == (if j.Joined? then j.room else old(rooms[code].Value()))
        && socketMap == (if j.Joined? then old(socketMap)[socketId := Mapping(code, j.playerId)] else old(socketMap))
    {
      if code !in rooms {
        return JoinRefused(NoRoom);
      }
      var room := rooms[code];
      if room.gameState.status != Waiting {
        return JoinRefused(GameStarted);
      }
      if |room.players| >= MaxPlayers {
        return JoinRefused(RoomFull);
      }
      var id: PlayerId;
      var known := if claimedId.Some? && claimedId.value != "" then Find(room.players, claimedId.value) else None;
      if known.Some? {
        var i := known.value;
        var p := room.players[i];
        room.players := room.players[i := p.(socketId := Some(socketId), connected := true, disconnectTime := None)];
        id := p.id;
      } else {
        room.players := PutPlayer(room.players, Newcomer(freshId, name, socketId));
        id := freshId;
      }
      socketMap := socketMap[socketId := Mapping(code, id)];
      j := Joined(room.Value(), id);
    }

    // ----- handleStartGame -----

    /** `handleStartGame`: the host of a room of two or more starts it. */
    method HandleStartGame(code: string, playerId: PlayerId, env: Env) returns (reply: Reply)
      modifies engine, RoomAt(code)
      ensures code !in rooms ==> reply == Dropped && engine.Sched() == old(engine.Sched())
      ensures code in rooms ==>
        var s := OnStartGame(old(rooms[code].Value()), playerId, env);
        && s.exit == Returned(reply) && rooms[code].Value() == s.room
        && engine.Sched() == Perform(old(engine.Sched()), old(rooms[code].code), s.effects)
    {
      if code !in rooms {
        return Dropped;
      }
      reply := StartGameIn(rooms[code], playerId, env);
    }

    /** `HandleStartGame` below the room lookup, on the room found. */
    method StartGameIn(room: Room, playerId: PlayerId, env: Env) returns (reply: Reply)
      modifies engine, room
      ensures var s := OnStartGame(old(room.Value()), playerId, env);
        && s.exit == Returned(reply) && room.Value() == s.room
        && engine.Sched() == Perform(old(engine.Sched()), old(room.code), s.effects)
    {
      var seat := Find(room.players, playerId);
      if seat.None? || room.players[seat.value].id != room.hostId {
        return Refused(NotHost);
      }
      if |room.players| < MinPlayers {
        return Refused(TooFewPlayers);
      }
      room.gameState := room.gameState.(status := Playing);
      engine.InitializeGame(room, env);
      reply := Done;
    }

    // ----- handleExecuteAction -----

    /** `handleExecuteAction`: the phase and turn gates, then the engine under the room's lock. */
    method HandleExecuteAction(code: string, id: PlayerId, kind: ActionKind, target: Option<PlayerId>, env: Env)
      returns (reply: Reply)
      modifies engine, RoomAt(code)
      ensures code !in rooms ==> reply == Dropped && engine.Sched() == old(engine.Sched())
      ensures code in rooms ==>
        var s := OnExecuteAction(old(rooms[code].Value()), id, kind, target, env);
        && s.exit == Returned(reply) && rooms[code].Value() == s.room
        && engine.Sched() == Perform(old(engine.Sched()), old(rooms[code].code), s.effects)
    {
      if code !in rooms {
        return Dropped;
      }
      reply := ExecuteActionIn(rooms[code], id, kind, target, env);
    }

    /** `HandleExecuteAction` below the room lookup, on the room found. */
    method ExecuteActionIn(room: Room, id: PlayerId, kind: ActionKind, target: Option<PlayerId>, env: Env) returns (reply: Reply)
      modifies engine, room
      ensures var s := OnExecuteAction(old(room.Value()), id, kind, target, env);
        && s.exit == Returned(reply) && room.Value() == s.room
        && engine.Sched() == Perform(old(engine.Sched()), old(room.code), s.effects)
    {
      if !room.gameState.phase.TurnStart? {
        return Refused(WrongPhase);
      }
      if room.gameState.currentPlayer != Some(id) {
        return Refused(NotYourTurn);
      }
      var key := room.code;
      var entered := engine.Acquire(room);
      if !entered {
        return Dropped;
      }
      ghost var r := old(room.Value());
      var answer := ExecuteUnderLock(room, key, id, kind, target, env);
      ExecuteOpens(r, id, kind, target, env);
      reply := if answer.Some? then answer.value else Dropped;
      engine.Release(room);
    }

    /** The body `handleExecuteAction` runs under the room's lock, keyed by the room's code `key`. */
    method ExecuteUnderLock(room: Room, key: string, id: PlayerId, kind: ActionKind, target: Option<PlayerId>, env: Env)
      returns (answer: Option<Reply>)
      requires room.lock
      modifies engine, room
      ensures var s := ExecuteLocked(old(room.Value()), id, kind, target, env);
        && room.Value() == s.room && engine.Sched() == Perform(old(engine.Sched()), key, s.effects)
        && answer == (if s.exit.Raised? then None else Some(s.exit.value))
    {
      ghost var x := room.Value();
      var result, raised := engine.ExecuteAction(room, id, kind, target, env);
      if raised {
        answer := None;
      } else if result.None? {
        answer := Some(Refused(ActionFailed));
      } else {
        RecordAction(room, key, result.value, env.now);
        RecordedFacts(Actions.ExecuteAction(x, id, kind, target, env), env.now);
        answer := Some(Done);
      }
    }

    /**
     * The record step of `handleExecuteAction`, under the lock the handler
     * holds: `lastAction` and the record's log lines, then the timer for the
     * window left open; with none, the nested `withLock(nextTurn)` is
     * rejected by that lock and does nothing.
     */
    method RecordAction(room: Room, key: string, rec: ActionRecord, now: int)
      requires room.lock
      modifies engine, room
      ensures var g := old(room.gameState);
        && room.Value() == old(room.Value()).(gameState := g.(lastAction := Some(rec), log := g.log + rec.log))
        && engine.Sched() == Perform(old(engine.Sched()), key,
             if g.challengeData.Some? then [Effect.StartTimer(20, ChallengeTimeout)]
             else if g.counterData.Some? then [Effect.StartTimer(15, CounterTimeout)]
             else [])
    {
      room.gameState := room.gameState.(lastAction := Some(rec));
      room.gameState := room.gameState.(log := room.gameState.log + rec.log);
      if room.gameState.challengeData.Some? {
        engine.StartTimer(key, 20, ChallengeTimeout);
      } else if room.gameState.counterData.Some? {
        engine.StartTimer(key, 15, CounterTimeout);
      } else {
        engine.LockedNextTurn(room, now);
      }
    }

    // ----- handleChallenge / handleCounter / handleDiscard -----

    /** `handleChallenge`: only in a challenge window; the result's log lines are appended under the lock. */
    method HandleChallenge(code: string, id: PlayerId, env: Env) returns (reply: Reply)
      modifies engine, RoomAt(code)
      ensures code !in rooms ==> reply == Dropped && engine.Sched() == old(engine.Sched())
      ensures code in rooms ==>
        var s := OnChallenge(old(rooms[code].Value()), id, env);
        && s.exit == Returned(reply) && rooms[code].Value() == s.room
        && engine.Sched() == Perform(old(engine.Sched()), old(rooms[code].code), s.effects)
    {
      if code !in rooms {
        return Dropped;
      }
      reply := ChallengeIn(rooms[code], id, env);
    }

    /** `HandleChallenge` below the room lookup, on the room found. */
    method ChallengeIn(room: Room, id: PlayerId, env: Env) returns (reply: Reply)
      modifies engine, room
      ensures var s := OnChallenge(old(room.Value()), id, env);
        && s.exit == Returned(reply) && room.Value() == s.room
        && engine.Sched() == Perform(old(engine.Sched()), old(room.code), s.effects)
    {
      if !room.gameState.phase.ChallengeWindow? {
        return Refused(WrongPhase);
      }
      var entered := engine.Acquire(room);
      if !entered {
        return Dropped;
      }
      var result, raised := engine.HandleChallenge(room, id, env);
      if !raised && result.Some? {
        room.gameState := room.gameState.(log := room.gameState.log + result.value.log);
        reply := Done;
      } else {
        reply := Dropped;
      }
      engine.Release(room);
    }

    /** `handleCounter`: only in a counter window, and only from a listed potential blocker. */
    method HandleCounter(code: string, id: PlayerId, block: bool, env: Env) returns (reply: Reply)
      modifies engine, RoomAt(code)
      ensures code !in rooms ==> reply == Dropped && engine.Sched() == old(engine.Sched())
      ensures code in rooms ==>
        var s := OnCounter(old(rooms[code].Value()), id, block, env);
        && s.exit == Returned(reply) && rooms[code].Value() == s.room
        && engine.Sched() == Perform(old(engine.Sched()), old(rooms[code].code), s.effects)
    {
      if code !in rooms {
        return Dropped;
      }
      reply := CounterIn(rooms[code], id, block, env);
    }

    /** `HandleCounter` below the room lookup, on the room found. */
    method CounterIn(room: Room, id: PlayerId, block: bool, env: Env) returns (reply: Reply)
      modifies engine, room
      ensures var s := OnCounter(old(room.Value()), id, block, env);
        && s.exit == Returned(reply) && room.Value() == s.room
        && engine.Sched() == Perform(old(engine.Sched()), old(room.code), s.effects)
    {
      if !room.gameState.phase.CounterWindow? {
        return Refused(WrongPhase);
      }
      var counterData := room.gameState.counterData;
      if counterData.None? || id !in counterData.value.potentialBlockers {
        return Refused(CannotCounter);
      }
      var entered := engine.Acquire(room);
      if !entered {
        return Dropped;
      }
      var result, raised := engine.HandleCounter(room, id, block, env);
      if !raised && result.Some? {
        room.gameState := room.gameState.(log := room.gameState.log + result.value.log);
        reply := Done;
      } else {
        reply := Dropped;
      }
      engine.Release(room);
    }

    /** `handleDiscard`: only in phase `DISCARD`; a discard is logged under the player's name. */
    method HandleDiscard(code: string, id: PlayerId, idx: int, env: Env) returns (reply: Reply)
      modifies engine, RoomAt(code)
      ensures code !in rooms ==> reply == Dropped && engine.Sched() == old(engine.Sched())
      ensures code in rooms ==>
        var s := OnDiscard(old(rooms[code].Value()), id, idx, env);
        && s.exit == Returned(reply) && rooms[code].Value() == s.room
        && engine.Sched() == Perform(old(engine.Sched()), old(rooms[code].code), s.effects)
    {
      if code !in rooms {
        return Dropped;
      }
      reply := DiscardIn(rooms[code], id, idx, env);
    }

    /** `HandleDiscard` below the room lookup, on the room found. */
    method DiscardIn(room: Room, id: PlayerId, idx: int, env: Env) returns (reply: Reply)
      modifies engine, room
      ensures var s := OnDiscard(old(room.Value()), id, idx, env);
        && s.exit == Returned(reply) && room.Value() == s.room
        && engine.Sched() == Perform(old(engine.Sched()), old(room.code), s.effects)
    {
      if !room.gameState.phase.Discard? {
        return Refused(WrongPhase);
      }
      var entered := engine.Acquire(room);
      if !entered {
        return Dropped;
      }
      var result, raised := engine.HandleDiscard(room, id, idx, env);
      if raised {
        reply := Dropped;
      } else if result == Some(true) {
        var seat := Find(room.players, id);
        if seat.None? {
          reply := Dropped;
        } else {
          room.gameState := room.gameState.(log := room.gameState.log + [CardDiscarded(room.players[seat.value].name)]);
          reply := Done;
        }
      } else {
        reply := Refused(DiscardFailed);
      }
      engine.Release(room);
    }

    // ----- handleReconnect / handleDisconnect -----

    /** `handleReconnect`: a seated player is connected again on the new socket, which is mapped to them. */
    method HandleReconnect(socketId: string, code: string, playerId: PlayerId) returns (j: Joined)
      modifies this, RoomAt(code)
      ensures rooms == old(rooms)
      ensures code !in rooms ==> j == JoinRefused(NoRoom) && socketMap == old(socketMap)
      ensures code in rooms ==>
        && j == OnReconnect(old(rooms[code].Value()), playerId, socketId)
        && rooms[code].Value() == (if j.Joined? then j.room else old(rooms[code].Value()))
        && socketMap == (if j.Joined? then old(socketMap)[socketId := Mapping(code, playerId)] else old(socketMap))
    {
      if code !in rooms {
        return JoinRefused(NoRoom);
      }
      var room := rooms[code];
      var seat := Find(room.players, playerId);
      if seat.None? {
        return JoinRefused(NoPlayer);
      }
      var i := seat.value;
      room.players := room.players[i := room.players[i].(socketId := Some(socketId), connected := true, disconnectTime := None)];
      socketMap := socketMap[socketId := Mapping(code, playerId)];
      j := Joined(room.Value(), playerId);
    }

    /** `checkDisconnectedPlayerInGame`: a current player who dropped has the turn skipped under the lock. */
    method CheckDisconnectedPlayerInGame(room: Room, id: PlayerId, now: int)
      modifies engine, room
      ensures var s := CheckDisconnectedInGame(old(room.Value()), id, now);
        && room.Value() == s.room
        && engine.Sched() == Perform(old(engine.Sched()), old(room.code), s.effects)
    {
      if room.gameState.currentPlayer != Some(id) {
        return;
      }
      var entered := engine.Acquire(room);
      if !entered {
        return;
      }
      var seat := Find(room.players, id);
      if seat.Some? {
        room.gameState := room.gameState.(log := room.gameState.log + [AutoSkipped(room.players[seat.value].name)]);
        var raised := engine.NextTurn(room, now);
      }
      engine.Release(room);
    }

    /** `handleDisconnect`: the mapped player is marked gone; in a game their turn is skipped; the mapping is dropped. */
    method HandleDisconnect(socketId: string, now: int)
      modifies this, engine, RoomOfSocket(socketId)
      ensures rooms == old(rooms)
      ensures socketId !in old(socketMap) || old(socketMap)[socketId].roomCode !in rooms ==>
        socketMap == old(socketMap) && engine.Sched() == old(engine.Sched())
      ensures socketId in old(socketMap) && old(socketMap)[socketId].roomCode in rooms ==>
        var m := old(socketMap)[socketId];
        var s := OnDisconnect(old(rooms[m.roomCode].Value()), m.playerId, now);
        && rooms[m.roomCode].Value() == s.room
        && engine.Sched() == Perform(old(engine.Sched()), old(rooms[m.roomCode].code), s.effects)
        && socketMap == old(socketMap) - {socketId}
    {
      if socketId !in socketMap {
        return;
      }
      var m := socketMap[socketId];
      if m.roomCode !in rooms {
        return;
      }
      var room := rooms[m.roomCode];
      var seat := Find(room.players, m.playerId);
      if seat.Some? {
        var i := seat.value;
        var p := room.players[i];
        room.players := room.players[i := p.(connected := false, disconnectTime := Some(now), socketId := None)];
        if room.gameState.status == Playing {
          CheckDisconnectedPlayerInGame(room, m.playerId, now);
        }
      }
      socketMap := socketMap - {socketId};
    }

    // ----- resolveChallengeTimeout / resolveCounterTimeout -----

    /** The action a challenge timeout lets through, carried out in place for the actor at seat `i`. */
    method CarryOutUnchallenged(room: Room, i: nat, a: ActionRecord, env: Env)
      requires i < |room.players|
      modifies room
      ensures room.Value() == Unchallenged(old(room.Value()), i, a, env)
      ensures room.code == old(room.code)
    {
      var actor := room.players[i];
      match a.kind
      case Tax =>
        room.players := room.players[i := actor.(coins := actor.coins + 3)];
        room.gameState := room.gameState.(log := room.gameState.log + [TaxCollected(actor.name)]);
      case Steal =>
        StealUnchallenged(room, i, a, env);
      case Exchange =>
        room.gameState := room.gameState.(log := room.gameState.log + [ExchangeDone(actor.name)]);
      case Assassinate =>
        AssassinateUnchallenged(room, i, a, env);
      case _ =>
    }

    /** An unchallenged steal: up to two coins leave the target, then reach the actor. */
    method StealUnchallenged(room: Room, i: nat, a: ActionRecord, env: Env)
      requires i < |room.players| && a.kind == Steal
      modifies room
      ensures room.Value() == Unchallenged(old(room.Value()), i, a, env)
      ensures room.code == old(room.code)
    {
      var actor := room.players[i];
      var seat := FindOpt(room.players, a.targetPlayerId);
      if seat.Some? && room.players[seat.value].coins > 0 {
        var ti := seat.value;
        ghost var x := room.Value();
        var amount := Actions.StealAmount(room.players[ti].coins);
        room.players := room.players[ti := room.players[ti].(coins := room.players[ti].coins - amount)];
        room.players := room.players[i := room.players[i].(coins := room.players[i].coins + amount)];
        Actions.TransferSeats(x, i, ti);
        room.gameState := room.gameState.(log := room.gameState.log + [Stole(actor.name, amount)]);
      }
    }

    /** An unchallenged assassination: the target, if holding a card, discards one at random. */
    method AssassinateUnchallenged(room: Room, i: nat, a: ActionRecord, env: Env)
      requires i < |room.players| && a.kind == Assassinate
      modifies room
      ensures room.Value() == Unchallenged(old(room.Value()), i, a, env)
      ensures room.code == old(room.code)
    {
      var seat := FindOpt(room.players, a.targetPlayerId);
      if seat.Some? && |room.players[seat.value].cards| > 0 {
        var t := room.players[seat.value];
        var ok := engine.DiscardCard(room, t.id, PickIndex(env.pick(0), |t.cards|), env.shuffle);
        room.gameState := room.gameState.(log := room.gameState.log + [Assassinated(t.name)]);
      }
    }

    /** The locked body of `resolveChallengeTimeout`; `raised` when the actor has left the room. */
    method ChallengeTimeoutUnderLock(room: Room, cd: ChallengeData, env: Env) returns (raised: bool)
      modifies engine, room
      ensures var s := ChallengeTimeoutBody(old(room.Value()), cd, env);
        && room.Value() == s.room && engine.Sched() == Perform(old(engine.Sched()), old(room.code), s.effects)
        && (raised <==> s.exit.Raised?)
    {
      room.gameState := room.gameState.(challengeData := None);
      var seat := Find(room.players, cd.action.playerId);
      if seat.None? {
        return true;
      }
      var i := seat.value;
      room.gameState := room.gameState.(log := room.gameState.log + [ChallengeTimedOut(room.players[i].name)]);
      CarryOutUnchallenged(room, i, cd.action, env);
      raised := engine.NextTurn(room, env.now);
    }

    /** `resolveChallengeTimeout(room)`: an unanswered challenge window lets the action through, then the turn moves on. */
    method ResolveChallengeTimeout(room: Room, env: Env)
      modifies engine, room
      ensures var s := SocketRules.ResolveChallengeTimeout(old(room.Value()), env);
        && room.Value() == s.room && engine.Sched() == Perform(old(engine.Sched()), old(room.code), s.effects)
    {
      if room.gameState.challengeData.None? {
        return;
      }
      var cd := room.gameState.challengeData.value;
      var entered := engine.Acquire(room);
      if !entered {
        return;
      }
      var raised := ChallengeTimeoutUnderLock(room, cd, env);
      engine.Release(room);
    }

    /** The countered action carried out in place; `None` when foreign aid's actor has left. */
    method CarryOutCountered(room: Room, a: ActionRecord, k: nat, shuffle: seq<Role> -> seq<Role>) returns (log: Option<seq<LogEntry>>)
      modifies room
      ensures var p := Responses.Proceed(old(room.Value()), a, k, shuffle);
        && room.Value() == p.room && (log.None? <==> p.exit.Raised?) && (p.exit.Returned? ==> log == Some(p.exit.value))
      ensures room.code == old(room.code)
    {
      if a.kind == ForeignAid {
        var seat := Find(room.players, a.playerId);
        if seat.None? {
          return None;
        }
        var i := seat.value;
        room.players := room.players[i := room.players[i].(coins := room.players[i].coins + 2)];
        log := Some([AidGranted(room.players[i].name)]);
      } else if a.kind == Assassinate {
        var seat := FindOpt(room.players, a.targetPlayerId);
        if seat.Some? && |room.players[seat.value].cards| > 0 {
          var t := room.players[seat.value];
          var ok := engine.DiscardCard(room, t.id, PickIndex(k, |t.cards|), shuffle);
          log := Some([Assassinated(t.name)]);
        } else {
          log := Some([]);
        }
      } else {
        log := Some([]);
      }
    }

    /** The locked body of `resolveCounterTimeout`. */
    method CounterTimeoutUnderLock(room: Room, cd: CounterData, env: Env) returns (raised: bool)
      modifies engine, room
      ensures var s := CounterTimeoutBody(old(room.Value()), cd, env);
        && room.Value() == s.room && engine.Sched() == Perform(old(engine.Sched()), old(room.code), s.effects)
        && (raised <==> s.exit.Raised?)
    {
      room.gameState := room.gameState.(counterData := None);
      room.gameState := room.gameState.(log := room.gameState.log + [CounterTimedOut]);
      var log := CarryOutCountered(room, cd.action, env.pick(0), env.shuffle);
      if log.None? {
        return true;
      }
      room.gameState := room.gameState.(log := room.gameState.log + log.value);
      raised := engine.NextTurn(room, env.now);
    }

    /** `resolveCounterTimeout(room)`: an unanswered counter window lets the action through, then the turn moves on. */
    method ResolveCounterTimeout(room: Room, env: Env)
      modifies engine, room
      ensures var s := SocketRules.ResolveCounterTimeout(old(room.Value()), env);
        && room.Value() == s.room && engine.Sched() == Perform(old(engine.Sched()), old(room.code), s.effects)
    {
      if room.gameState.counterData.None? {
        return;
      }
      var cd := room.gameState.counterData.value;
      var entered := engine.Acquire(room);
      if !entered {
        return;
      }
      var raised := CounterTimeoutUnderLock(room, cd, env);
      engine.Release(room);
    }

    /**
     * A timer of `startTimer` going off: its callback runs inside `withLock`.
     * The resolvers then meet the lock held, so nothing changes.
     */
    method FireTimer(room: Room, cb: TimerCallback, env: Env)
      modifies engine, room
      ensures var s := TimerFires(old(room.Value()), cb, env);
        && room.Value() == s.room && engine.Sched() == Perform(old(engine.Sched()), old(room.code), s.effects)
      ensures room.Value() == old(room.Value()) && engine.Sched() == old(engine.Sched())
    {
      TimerFiresInert(room.Value(), cb, env);
      var entered := engine.Acquire(room);
      if entered {
        ghost var x := room.Value();
        assert SocketRules.ResolveChallengeTimeout(x, env).room == x;
        assert SocketRules.ResolveCounterTimeout(x, env).room == x;
        match cb {
          case ChallengeTimeout => ResolveChallengeTimeout(room, env);
          case CounterTimeout => ResolveCounterTimeout(room, env);
        }
        engine.Release(room);
      }
    }
  }
}
