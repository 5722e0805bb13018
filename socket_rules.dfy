/**
 * The game-rule half of `SocketManager`, on one room value: the checks in
 * front of every engine call, the work each handler does under the room's
 * lock, the connectivity flags, and the two timeout resolutions. Looking the
 * room up in the table and keeping the socket map are the class's business.
 */
module SocketRules {
  import opened Cards
  import opened State
  import opened Rules
  import opened Turns
  import opened Actions
  import opened Responses
  import opened RoomRules

  /** Why a handler answers with an error event. */
  datatype Refusal =
    | NoRoom | GameStarted | RoomFull | NotHost | TooFewPlayers
    | WrongPhase | NotYourTurn | CannotCounter | ActionFailed | DiscardFailed | NoPlayer

  /** What the sender hears: success, nothing at all (`withLock` returned `null`), or an error. */
  datatype Reply = Done | Dropped | Refused(why: Refusal)

  /** A room with the player id the socket is now mapped to, or a refusal. */
  datatype Joined = Joined(room: RoomValue, playerId: PlayerId) | JoinRefused(why: Refusal)

  /** A player who has just arrived on socket `socketId`: 2 coins, no cards, alive and connected. */
  function Newcomer(id: PlayerId, name: string, socketId: string): Player
  {
    Player(id, name, 2, [], true, Some(socketId), true, None)
  }

  /** A `withLock` result as the sender hears it: `null` says nothing. */
  function Answer(w: Step<Option<Reply>>): (s: Step<Reply>)
    ensures s.room == w.room && s.effects == w.effects && s.exit.Returned?
  {
    var reply := match w.exit
      case Returned(Some(a)) => a
      case _ => Dropped;
    Step(w.room, w.effects, Returned(reply))
  }

  // ----- handleCreateRoom / handleJoinRoom -----

  /** `handleCreateRoom`: the creator is host and first player. The socket layer keeps no `lastActivity`; it is the creation time here. */
  function OnCreateRoom(code: string, name: string, playerId: PlayerId, socketId: string, now: int): RoomValue
  {
    RoomValue(code, playerId, [Newcomer(playerId, name, socketId)], FreshGameState, false, now, now)
  }

  /**
   * `handleJoinRoom` once the room is found: only a waiting room with fewer
   * than six players admits. A non-empty `playerId` already seated is
   * reattached to the new socket; anyone else is seated under `freshId`.
   */
  function OnJoinRoom(r: RoomValue, name: string, playerId: Option<PlayerId>, socketId: string, freshId: PlayerId): (j: Joined)
  {
    if r.gameState.status != Waiting then JoinRefused(GameStarted)
    else if IsRoomFull(r) then JoinRefused(RoomFull)
    else
      var known := if playerId.Some? && playerId.value != "" then Find(r.players, playerId.value) else None;
      match known
      case Some(i) =>
        Joined(SetPlayer(r, i, r.players[i].(socketId := Some(socketId), connected := true, disconnectTime := None)), r.players[i].id)
      case None =>
        Joined(r.(players := PutPlayer(r.players, Newcomer(freshId, name, socketId))), freshId)
  }

  /** A started game or six players turn every joiner away. */
  lemma JoinRefusals(r: RoomValue, name: string, playerId: Option<PlayerId>, socketId: string, freshId: PlayerId)
    ensures var j := OnJoinRoom(r, name, playerId, socketId, freshId);
      && (r.gameState.status != Waiting ==> j == JoinRefused(GameStarted))
      && (r.gameState.status == Waiting && |r.players| >= 6 ==> j == JoinRefused(RoomFull))
      && (r.gameState.status == Waiting && |r.players| < 6 <==> j.Joined?)
  {
  }

  /** A known player id keeps its seat, coins and cards, and is connected again on the new socket. */
  lemma JoinReattaches(r: RoomValue, name: string, id: PlayerId, socketId: string, freshId: PlayerId, i: nat)
    requires r.gameState.status == Waiting && |r.players| < 6
    requires id != "" && Find(r.players, id) == Some(i)
    ensures var j := OnJoinRoom(r, name, Some(id), socketId, freshId);
      && j.Joined? && j.playerId == id
      && |j.room.players| == |r.players| && j.room.gameState == r.gameState
      && j.room.players[i].coins == r.players[i].coins && j.room.players[i].cards == r.players[i].cards
      && j.room.players[i].connected && j.room.players[i].socketId == Some(socketId)
      && j.room.players[i].disconnectTime.None?
      && (forall k :: 0 <= k < |r.players| && k != i ==> j.room.players[k] == r.players[k])
  {
  }

  /**
   * Anyone else is seated as a newcomer with 2 coins, an empty hand, alive and
   * connected; every other id still finds its player, and the room grows by
   * one seat up to at most six.
   */
  lemma JoinSeatsNewcomer(r: RoomValue, name: string, playerId: Option<PlayerId>, socketId: string, freshId: PlayerId)
    requires r.gameState.status == Waiting && |r.players| < 6
    requires playerId.None? || playerId.value == "" || Find(r.players, playerId.value).None?
    ensures var j := OnJoinRoom(r, name, playerId, socketId, freshId);
      && j.Joined? && j.playerId == freshId && j.room.gameState == r.gameState
      && Find(j.room.players, freshId).Some?
      && j.room.players[Find(j.room.players, freshId).value] == Newcomer(freshId, name, socketId)
      && (forall id :: id != freshId ==> Find(j.room.players, id) == Find(r.players, id))
      && |j.room.players| <= 6
      && (Find(r.players, freshId).None? ==> |j.room.players| == |r.players| + 1)
  {
    var j := OnJoinRoom(r, name, playerId, socketId, freshId);
    forall id | id != freshId ensures Find(j.room.players, id) == Find(r.players, id) {
      PutPlayerKeepsOthers(r.players, Newcomer(freshId, name, socketId), id);
    }
  }

  // ----- handleStartGame -----

  /** `handleStartGame` once the room is found: only the host, and only with two players, starts the game. */
  function OnStartGame(r: RoomValue, playerId: PlayerId, env: Env): (s: Step<Reply>)
  {
    match Find(r.players, playerId)
    case None => Step(r, [], Returned(Refused(NotHost)))
    case Some(i) =>
      if r.players[i].id != r.hostId then Step(r, [], Returned(Refused(NotHost)))
      else if |r.players| < MinPlayers then Step(r, [], Returned(Refused(TooFewPlayers)))
      else Then(InitializeGame(r.(gameState := r.gameState.(status := Playing)), env), Done)
  }

  /** Starting is refused, with no change, to anyone but a seated host and in a room of fewer than two. */
  lemma StartGameRefusals(r: RoomValue, playerId: PlayerId, env: Env)
    ensures var s := OnStartGame(r, playerId, env);
      && (Find(r.players, playerId).None? || playerId != r.hostId ==> s == Step(r, [], Returned(Refused(NotHost))))
      && (Find(r.players, playerId).Some? && playerId == r.hostId && |r.players| < 2 ==>
            s == Step(r, [], Returned(Refused(TooFewPlayers))))
      && (s.exit == Returned(Done) <==> Find(r.players, playerId).Some? && playerId == r.hostId && |r.players| >= 2)
  {
  }

  /**
   * A start by the host deals the game: status `playing`, a deck of `15 - 2n`,
   * and every connected player with 2 coins, two cards and alive (the phase
   * change's sweep may eliminate one gone for more than a minute).
   */
  lemma StartGameDeals(r: RoomValue, env: Env)
    requires Find(r.players, r.hostId).Some? && 2 <= |r.players| <= 6
    requires !r.lock && IsShuffle(env.shuffle) && DistinctIds(r.players)
    ensures var s := OnStartGame(r, r.hostId, env);
      && s.exit == Returned(Done)
      && s.effects == [ClearTimer, ScheduleAdvance]
      && s.room.gameState.status == Playing && s.room.gameState.phase == TurnStart(None)
      && |s.room.gameState.deck| == 15 - 2 * |r.players|
      && |s.room.players| == |r.players|
      && (forall i :: 0 <= i < |r.players| && r.players[i].connected ==>
            && s.room.players[i].id == r.players[i].id
            && s.room.players[i].coins == 2 && |s.room.players[i].cards| == 2 && s.room.players[i].isAlive)
  {
    InitializeGameStarts(r.(gameState := r.gameState.(status := Playing)), env);
  }

  // ----- handleExecuteAction -----

  /**
   * What `handleExecuteAction` does with the engine's answer `e`, still under
   * the lock: on a record, `lastAction` and the record's log, then a 20 s
   * challenge timer, a 15 s counter timer, or a nested `withLock(nextTurn)`,
   * which the held lock rejects.
   */
  function Recorded(e: Step<Option<ActionRecord>>, now: int): (s: Step<Reply>)
  {
    match e.exit
    case Raised => Step(e.room, e.effects, Raised)
    case Returned(None) => Step(e.room, e.effects, Returned(Refused(ActionFailed)))
    case Returned(Some(rec)) =>
      var q := AppendLog(e.room.(gameState := e.room.gameState.(lastAction := Some(rec))), rec.log);
      if q.gameState.challengeData.Some? then Step(q, e.effects + [StartTimer(20, ChallengeTimeout)], Returned(Done))
      else if q.gameState.counterData.Some? then Step(q, e.effects + [StartTimer(15, CounterTimeout)], Returned(Done))
      else
        var next := WithLock(q, (y: RoomValue) => NextTurn(y, now));
        Step(next.room, e.effects + next.effects, Returned(Done))
  }

  /** The locked body of `handleExecuteAction`. */
  function ExecuteLocked(x: RoomValue, id: PlayerId, kind: ActionKind, target: Option<PlayerId>, env: Env): Step<Reply>
  {
    Recorded(ExecuteAction(x, id, kind, target, env), env.now)
  }

  /**
   * Inside the lock a record is stored as `lastAction`, its log lines close
   * the game log, and the timer armed follows the window left open; with no
   * window the nested `nextTurn` is rejected, so nothing follows.
   */
  lemma RecordedFacts(e: Step<Option<ActionRecord>>, now: int)
    requires e.room.lock && e.exit.Returned? && e.exit.value.Some?
    ensures var rec := e.exit.value.value;
      var g := e.room.gameState;
      Recorded(e, now) == Step(e.room.(gameState := g.(lastAction := Some(rec), log := g.log + rec.log)),
                               e.effects + (if g.challengeData.Some? then [StartTimer(20, ChallengeTimeout)]
                                            else if g.counterData.Some? then [StartTimer(15, CounterTimeout)]
                                            else []),
                               Returned(Done))
  {
    if e.room.gameState.challengeData.None? && e.room.gameState.counterData.None? {
      assert e.effects + [] == e.effects;
    }
  }

  /** `handleExecuteAction` once the room is found. */
  function OnExecuteAction(r: RoomValue, id: PlayerId, kind: ActionKind, target: Option<PlayerId>, env: Env): (s: Step<Reply>)
  {
    if !r.gameState.phase.TurnStart? then Step(r, [], Returned(Refused(WrongPhase)))
    else if r.gameState.currentPlayer != Some(id) then Step(r, [], Returned(Refused(NotYourTurn)))
    else Answer(WithLock(r, (x: RoomValue) => ExecuteLocked(x, id, kind, target, env)))
  }

  /** No engine call, and no change, unless the phase is `TURN_START` and the sender is the current player. */
  lemma ExecuteGate(r: RoomValue, id: PlayerId, kind: ActionKind, target: Option<PlayerId>, env: Env)
    ensures var s := OnExecuteAction(r, id, kind, target, env);
      && (!r.gameState.phase.TurnStart? ==> s == Step(r, [], Returned(Refused(WrongPhase))))
      && (r.gameState.phase.TurnStart? && r.gameState.currentPlayer != Some(id) ==>
            s == Step(r, [], Returned(Refused(NotYourTurn))))
  {
  }

  /** Past the gate, with the lock free, the handler is its locked body run under the room's lock. */
  lemma ExecuteOpens(r: RoomValue, id: PlayerId, kind: ActionKind, target: Option<PlayerId>, env: Env)
    requires r.gameState.phase.TurnStart? && r.gameState.currentPlayer == Some(id) && !r.lock
    ensures var body := ExecuteLocked(r.(lock := true), id, kind, target, env);
      OnExecuteAction(r, id, kind, target, env)
        == Step(body.room.(lock := false), body.effects, Returned(if body.exit.Raised? then Dropped else body.exit.value))
  {
  }

  /**
   * Past the gate, with the lock free, the engine's record is stored as
   * `lastAction`, its log lines close the game log, and the timer armed
   * follows the window left open. Because the engine runs under the lock
   * the socket took, its own phase change is dropped: the phase stays
   * `TURN_START` and no engine timer is touched.
   */
  lemma ExecuteRecords(r: RoomValue, id: PlayerId, kind: ActionKind, target: Option<PlayerId>, env: Env)
    requires r.gameState.phase.TurnStart? && r.gameState.currentPlayer == Some(id) && !r.lock
    requires ExecuteAction(r.(lock := true), id, kind, target, env).exit.Returned?
    requires ExecuteAction(r.(lock := true), id, kind, target, env).exit.value.Some?
    ensures var e := ExecuteAction(r.(lock := true), id, kind, target, env);
      var rec := e.exit.value.value;
      var s := OnExecuteAction(r, id, kind, target, env);
      var g := e.room.gameState;
      && s.exit == Returned(Done) && !s.room.lock
      && s.room == e.room.(lock := false, gameState := g.(lastAction := Some(rec), log := g.log + rec.log))
      && s.room.gameState.phase == r.gameState.phase
      && s.effects == (if g.challengeData.Some? then [StartTimer(20, ChallengeTimeout)]
                       else if g.counterData.Some? then [StartTimer(15, CounterTimeout)]
                       else [])
  {
    var x := r.(lock := true);
    var e := ExecuteAction(x, id, kind, target, env);
    var f := (y: RoomValue) => ExecuteLocked(y, id, kind, target, env);
    assert OnExecuteAction(r, id, kind, target, env) == Answer(WithLock(r, f));
    LockedRecord(r, f, e, env.now);
  }

  /** `withLock` around a body that ends in `Recorded(e)`, for any engine answer `e` made under the lock. */
  lemma LockedRecord(r: RoomValue, f: RoomValue -> Step<Reply>, e: Step<Option<ActionRecord>>, now: int)
    requires !r.lock && e.room.lock && e.exit.Returned? && e.exit.value.Some?
    requires f(r.(lock := true)) == Recorded(e, now)
    ensures var rec := e.exit.value.value;
      var s := Answer(WithLock(r, f));
      var g := e.room.gameState;
      && s.exit == Returned(Done) && !s.room.lock
      && s.room == e.room.(lock := false, gameState := g.(lastAction := Some(rec), log := g.log + rec.log))
      && s.effects == e.effects + (if g.challengeData.Some? then [StartTimer(20, ChallengeTimeout)]
                                   else if g.counterData.Some? then [StartTimer(15, CounterTimeout)]
                                   else [])
  {
    RecordedFacts(e, now);
  }

  // ----- handleChallenge / handleCounter / handleDiscard -----

  /** The body of the socket's `handleChallenge` under the lock: on a result, its log lines are appended. */
  function ChallengeLocked(x: RoomValue, id: PlayerId, env: Env): Step<Reply>
  {
    var s := HandleChallenge(x, id, env);
    match s.exit
    case Raised => Step(s.room, s.effects, Raised)
    case Returned(None) => Step(s.room, s.effects, Returned(Dropped))
    case Returned(Some(res)) => Step(AppendLog(s.room, res.log), s.effects, Returned(Done))
  }

  /** The socket's `handleChallenge` once the room is found: only in a challenge window. */
  function OnChallenge(r: RoomValue, id: PlayerId, env: Env): Step<Reply>
  {
    if !r.gameState.phase.ChallengeWindow? then Step(r, [], Returned(Refused(WrongPhase)))
    else Answer(WithLock(r, (x: RoomValue) => ChallengeLocked(x, id, env)))
  }

  /** The body of the socket's `handleCounter` under the lock. */
  function CounterLocked(x: RoomValue, id: PlayerId, block: bool, env: Env): Step<Reply>
  {
    var s := HandleCounter(x, id, block, env);
    match s.exit
    case Raised => Step(s.room, s.effects, Raised)
    case Returned(None) => Step(s.room, s.effects, Returned(Dropped))
    case Returned(Some(res)) => Step(AppendLog(s.room, res.log), s.effects, Returned(Done))
  }

  /** The socket's `handleCounter` once the room is found: only in a counter window, and only for a listed blocker. */
  function OnCounter(r: RoomValue, id: PlayerId, block: bool, env: Env): Step<Reply>
  {
    if !r.gameState.phase.CounterWindow? then Step(r, [], Returned(Refused(WrongPhase)))
    else if r.gameState.counterData.None? || id !in r.gameState.counterData.value.potentialBlockers then
      Step(r, [], Returned(Refused(CannotCounter)))
    else Answer(WithLock(r, (x: RoomValue) => CounterLocked(x, id, block, env)))
  }

  /** No engine call, and no change, outside a counter window or from someone not listed as a potential blocker. */
  lemma CounterGate(r: RoomValue, id: PlayerId, block: bool, env: Env)
    ensures var s := OnCounter(r, id, block, env);
      && (!r.gameState.phase.CounterWindow? ==> s == Step(r, [], Returned(Refused(WrongPhase))))
      && (r.gameState.phase.CounterWindow? &&
          (r.gameState.counterData.None? || id !in r.gameState.counterData.value.potentialBlockers) ==>
            s == Step(r, [], Returned(Refused(CannotCounter))))
      && (r.gameState.phase.CounterWindow? && r.gameState.counterData.Some? &&
          id in r.gameState.counterData.value.potentialBlockers && r.lock ==>
            s == Step(r, [], Returned(Dropped)))
  {
  }

  /** The body of the socket's `handleDiscard` under the lock: a discard is logged under the player's name. */
  function DiscardLocked(x: RoomValue, id: PlayerId, idx: int, env: Env): Step<Reply>
  {
    var s := HandleDiscard(x, id, idx, env);
    match s.exit
    case Raised => Step(s.room, s.effects, Raised)
    case Returned(Some(true)) =>
      (match Find(s.room.players, id)
       case None => Step(s.room, s.effects, Raised)
       case Some(i) => Step(AppendLog(s.room, [CardDiscarded(s.room.players[i].name)]), s.effects, Returned(Done)))
    case Returned(_) => Step(s.room, s.effects, Returned(Refused(DiscardFailed)))
  }

  /** The socket's `handleDiscard` once the room is found: only in phase `DISCARD`. */
  function OnDiscard(r: RoomValue, id: PlayerId, idx: int, env: Env): Step<Reply>
  {
    if !r.gameState.phase.Discard? then Step(r, [], Returned(Refused(WrongPhase)))
    else Answer(WithLock(r, (x: RoomValue) => DiscardLocked(x, id, idx, env)))
  }

  // ----- handleDisconnect / handleReconnect -----

  /** The locked body of `checkDisconnectedPlayerInGame`: log the skip, then `nextTurn`. */
  function SkipLocked(x: RoomValue, id: PlayerId, now: int): Step<()>
  {
    match Find(x.players, id)
    case None => Step(x, [], Raised)
    case Some(i) => NextTurn(AppendLog(x, [AutoSkipped(x.players[i].name)]), now)
  }

  /** `checkDisconnectedPlayerInGame`: only the current player's turn is skipped. */
  function CheckDisconnectedInGame(r: RoomValue, id: PlayerId, now: int): Step<()>
  {
    if r.gameState.currentPlayer == Some(id) then
      var w := WithLock(r, (x: RoomValue) => SkipLocked(x, id, now));
      Step(w.room, w.effects, Returned(()))
    else Step(r, [], Returned(()))
  }

  /** The player as a dropped socket leaves them. */
  function Disconnected(p: Player, now: int): (q: Player)
    ensures !q.connected && q.disconnectTime == Some(now) && q.socketId.None?
    ensures q == p.(connected := q.connected, disconnectTime := q.disconnectTime, socketId := q.socketId)
  {
    p.(connected := false, disconnectTime := Some(now), socketId := None)
  }

  /** `handleDisconnect` for the mapped player of a room that exists. */
  function OnDisconnect(r: RoomValue, id: PlayerId, now: int): Step<()>
  {
    match Find(r.players, id)
    case None => Step(r, [], Returned(()))
    case Some(i) =>
      var r1 := SetPlayer(r, i, Disconnected(r.players[i], now));
      if r1.gameState.status == Playing then CheckDisconnectedInGame(r1, id, now)
      else Step(r1, [], Returned(()))
  }

  /**
   * The mapped player is marked disconnected at `now` with no socket; unless
   * a game is in progress and it is that player's turn, nothing else changes.
   */
  lemma DisconnectMarks(r: RoomValue, id: PlayerId, now: int, i: nat)
    requires Find(r.players, id) == Some(i)
    requires r.gameState.status != Playing || r.gameState.currentPlayer != Some(id)
    ensures OnDisconnect(r, id, now) == Step(SetPlayer(r, i, Disconnected(r.players[i], now)), [], Returned(()))
  {
  }

  /** A current player who drops out of a game in progress has the turn skipped at once. */
  lemma DisconnectSkipsTurn(r: RoomValue, id: PlayerId, now: int, i: nat)
    requires Find(r.players, id) == Some(i) && !r.lock
    requires r.gameState.status == Playing && r.gameState.currentPlayer == Some(id)
    ensures var q := SetPlayer(r, i, Disconnected(r.players[i], now));
      OnDisconnect(r, id, now).room == NextTurn(AppendLog(q.(lock := true), [AutoSkipped(r.players[i].name)]), now).room.(lock := false)
  {
    var q := SetPlayer(r, i, Disconnected(r.players[i], now));
    FindAfterSet(r.players, i, Disconnected(r.players[i], now), id);
    assert Find(q.(lock := true).players, id) == Some(i);
  }

  /** An id not in the room leaves it as it was. */
  lemma DisconnectUnknown(r: RoomValue, id: PlayerId, now: int)
    requires Find(r.players, id).None?
    ensures OnDisconnect(r, id, now) == Step(r, [], Returned(()))
  {
  }

  /** `handleReconnect` once the room is found: a seated player is connected again on the new socket. */
  function OnReconnect(r: RoomValue, id: PlayerId, socketId: string): (j: Joined)
  {
    match Find(r.players, id)
    case None => JoinRefused(NoPlayer)
    case Some(i) => Joined(SetPlayer(r, i, r.players[i].(socketId := Some(socketId), connected := true, disconnectTime := None)), id)
  }

  /** Reconnecting undoes exactly what disconnecting set, on the new socket. */
  lemma ReconnectRestores(r: RoomValue, id: PlayerId, socketId: string, now: int, i: nat)
    requires Find(r.players, id) == Some(i)
    ensures var j := OnReconnect(r, id, socketId);
      && j == Joined(SetPlayer(r, i, r.players[i].(socketId := Some(socketId), connected := true, disconnectTime := None)), id)
      && OnReconnect(SetPlayer(r, i, Disconnected(r.players[i], now)), id, socketId) == j
  {
    FindAfterSet(r.players, i, Disconnected(r.players[i], now), id);
  }

  /** An unknown player cannot reconnect. */
  lemma ReconnectUnknown(r: RoomValue, id: PlayerId, socketId: string)
    ensures OnReconnect(r, id, socketId).JoinRefused? <==> Find(r.players, id).None?
  {
  }

  // ----- resolveChallengeTimeout / resolveCounterTimeout -----

  /** The uncontested action of a challenge timeout, for the actor at seat `i`. */
  function Unchallenged(x: RoomValue, i: nat, a: ActionRecord, env: Env): (q: RoomValue)
    requires i < |x.players|
    ensures |q.players| == |x.players|
  {
    var actor := x.players[i];
    match a.kind
    case Tax => AppendLog(AddCoins(x, i, 3), [TaxCollected(actor.name)])
    case Steal =>
      (match FindOpt(x.players, a.targetPlayerId)
       case Some(ti) =>
         if x.players[ti].coins > 0 then
           var t := Transfer(x, i, ti);
           AppendLog(t.room, [Stole(actor.name, t.value)])
         else x
       case None => x)
    case Exchange => AppendLog(x, [ExchangeDone(actor.name)])
    case Assassinate =>
      (match FindOpt(x.players, a.targetPlayerId)
       case Some(ti) =>
         var t := x.players[ti];
         if |t.cards| > 0 then
           AppendLog(DiscardCard(x, t.id, PickIndex(env.pick(0), |t.cards|), env.shuffle).room, [Assassinated(t.name)])
         else x
       case None => x)
    case _ => x
  }

  /** The locked body of `resolveChallengeTimeout`; an actor who has left makes `actor.name` throw. */
  function ChallengeTimeoutBody(x: RoomValue, cd: ChallengeData, env: Env): Step<()>
  {
    var x1 := x.(gameState := x.gameState.(challengeData := None));
    match Find(x1.players, cd.action.playerId)
    case None => Step(x1, [], Raised)
    case Some(i) =>
      NextTurn(Unchallenged(AppendLog(x1, [ChallengeTimedOut(x1.players[i].name)]), i, cd.action, env), env.now)
  }

  /** `resolveChallengeTimeout(room)`. */
  function ResolveChallengeTimeout(r: RoomValue, env: Env): Step<()>
  {
    match r.gameState.challengeData
    case None => Step(r, [], Returned(()))
    case Some(cd) =>
      var w := WithLock(r, (x: RoomValue) => ChallengeTimeoutBody(x, cd, env));
      Step(w.room, w.effects, Returned(()))
  }

  /** The locked body of `resolveCounterTimeout`: the countered action goes ahead as an unanswered one would. */
  function CounterTimeoutBody(x: RoomValue, cd: CounterData, env: Env): Step<()>
  {
    var x1 := AppendLog(x.(gameState := x.gameState.(counterData := None)), [CounterTimedOut]);
    var p := Proceed(x1, cd.action, env.pick(0), env.shuffle);
    match p.exit
    case Raised => Step(p.room, [], Raised)
    case Returned(log) => NextTurn(AppendLog(p.room, log), env.now)
  }

  /** `resolveCounterTimeout(room)`. */
  function ResolveCounterTimeout(r: RoomValue, env: Env): Step<()>
  {
    match r.gameState.counterData
    case None => Step(r, [], Returned(()))
    case Some(cd) =>
      var w := WithLock(r, (x: RoomValue) => CounterTimeoutBody(x, cd, env));
      Step(w.room, w.effects, Returned(()))
  }

  /** With nothing pending, either resolver is a no-op. */
  lemma TimeoutsIdle(r: RoomValue, env: Env)
    ensures r.gameState.challengeData.None? ==> ResolveChallengeTimeout(r, env) == Step(r, [], Returned(()))
    ensures r.gameState.counterData.None? ==> ResolveCounterTimeout(r, env) == Step(r, [], Returned(()))
  {
  }

  /**
   * Called with the lock free, a challenge timeout clears `challengeData` and
   * carries out the action (tax +3, a steal of up to two coins, an exchange
   * logged only, an assassination's discard), then the turn moves on.
   */
  lemma ChallengeTimeoutApplies(r: RoomValue, env: Env, i: nat)
    requires !r.lock && r.gameState.challengeData.Some?
    requires Find(r.players, r.gameState.challengeData.value.action.playerId) == Some(i)
    ensures var cd := r.gameState.challengeData.value;
      var x1 := r.(lock := true, gameState := r.gameState.(challengeData := None));
      var applied := Unchallenged(AppendLog(x1, [ChallengeTimedOut(r.players[i].name)]), i, cd.action, env);
      && ResolveChallengeTimeout(r, env).room == NextTurn(applied, env.now).room.(lock := false)
      && applied.gameState.challengeData.None?
  {
    var cd := r.gameState.challengeData.value;
    var x1 := r.(lock := true, gameState := r.gameState.(challengeData := None));
    assert Find(x1.players, cd.action.playerId) == Some(i);
    UnchallengedFrame(AppendLog(x1, [ChallengeTimedOut(r.players[i].name)]), i, cd.action, env);
  }

  /** The uncontested action changes only players, the deck, the discard pile and the log. */
  lemma UnchallengedFrame(x: RoomValue, i: nat, a: ActionRecord, env: Env)
    requires i < |x.players|
    ensures var q := Unchallenged(x, i, a, env);
      q == x.(players := q.players,
              gameState := x.gameState.(deck := q.gameState.deck, discardPile := q.gameState.discardPile, log := q.gameState.log))
  {
    if a.kind == Assassinate {
      match FindOpt(x.players, a.targetPlayerId)
      case Some(ti) =>
        var t := x.players[ti];
        if |t.cards| > 0 {
          DiscardFrame(x, t.id, PickIndex(env.pick(0), |t.cards|), env.shuffle);
        }
      case None =>
    }
  }

  /**
   * The uncontested effects themselves: tax pays 3; a steal from a target
   * with coins moves up to two and keeps the total; an exchange touches no
   * coin or card.
   */
  lemma UnchallengedEffects(x: RoomValue, i: nat, a: ActionRecord, env: Env)
    requires i < |x.players|
    ensures var q := Unchallenged(x, i, a, env);
      && (a.kind == Tax ==> Paid(x.players, q.players, i, 3))
      && (a.kind == Exchange ==> q.players == x.players && q.gameState.deck == x.gameState.deck)
      && (a.kind == Steal && FindOpt(x.players, a.targetPlayerId).Some? ==>
            var ti := FindOpt(x.players, a.targetPlayerId).value;
            && CoinTotal(q.players) == CoinTotal(x.players)
            && (x.players[ti].coins > 0 && ti != i ==>
                  var amount := StealAmount(x.players[ti].coins);
                  && 0 < amount <= 2
                  && q.players[i].coins == x.players[i].coins + amount
                  && q.players[ti].coins == x.players[ti].coins - amount >= 0))
      && (a.kind == Assassinate && FindOpt(x.players, a.targetPlayerId).Some? ==>
            var ti := FindOpt(x.players, a.targetPlayerId).value; var t := x.players[ti];
            && (forall j :: 0 <= j < |x.players| && j != ti ==> q.players[j] == x.players[j])
            && (|t.cards| == 0 ==> q == x)
            && (IsShuffle(env.shuffle) && t.isAlive && |t.cards| > 0 ==> Struck(t, q.players[ti])))
  {
    if a.kind == Steal && FindOpt(x.players, a.targetPlayerId).Some? {
      var ti := FindOpt(x.players, a.targetPlayerId).value;
      if x.players[ti].coins > 0 {
        TransferMoves(x, i, ti);
      }
    }
    if a.kind == Assassinate && FindOpt(x.players, a.targetPlayerId).Some? {
      UnchallengedStrike(x, i, a, FindOpt(x.players, a.targetPlayerId).value, env);
    }
  }

  /** An unchallenged assassination of a player with cards makes them discard one. */
  lemma UnchallengedStrike(x: RoomValue, i: nat, a: ActionRecord, ti: nat, env: Env)
    requires i < |x.players| && a.kind == Assassinate && FindOpt(x.players, a.targetPlayerId) == Some(ti)
    ensures var q := Unchallenged(x, i, a, env); var t := x.players[ti];
      && (forall j :: 0 <= j < |x.players| && j != ti ==> q.players[j] == x.players[j])
      && (|t.cards| == 0 ==> q == x)
      && (IsShuffle(env.shuffle) && t.isAlive && |t.cards| > 0 ==> Struck(t, q.players[ti]))
  {
    var t := x.players[ti];
    if |t.cards| > 0 {
      var idx := PickIndex(env.pick(0), |t.cards|);
      DiscardKeepsOthers(x, t.id, idx, env.shuffle);
      if IsShuffle(env.shuffle) && t.isAlive {
        DiscardStrikes(x, ti, idx, env.shuffle);
      }
    }
  }

  /**
   * Called with the lock free, a counter timeout clears `counterData` and lets
   * the action proceed exactly as a declined counter would, then the turn
   * moves on.
   */
  lemma CounterTimeoutApplies(r: RoomValue, env: Env)
    requires !r.lock && r.gameState.counterData.Some?
    ensures var cd := r.gameState.counterData.value;
      var x1 := AppendLog(r.(lock := true, gameState := r.gameState.(counterData := None)), [CounterTimedOut]);
      var p := Proceed(x1, cd.action, env.pick(0), env.shuffle);
      && (p.exit.Returned? ==> ResolveCounterTimeout(r, env).room == NextTurn(AppendLog(p.room, p.exit.value), env.now).room.(lock := false))
      && (p.exit.Raised? ==> ResolveCounterTimeout(r, env).room == p.room.(lock := false))
      && ResolveCounterTimeout(r, env).room.gameState.counterData.None?
  {
    var cd := r.gameState.counterData.value;
    var x1 := AppendLog(r.(lock := true, gameState := r.gameState.(counterData := None)), [CounterTimedOut]);
    var p := Proceed(x1, cd.action, env.pick(0), env.shuffle);
    ProceedFrame(x1, cd.action, env.pick(0), env.shuffle);
    if p.exit.Returned? {
      NextTurnFrame(AppendLog(p.room, p.exit.value), env.now);
    }
  }

  /** Proceeding changes only players, the deck and the discard pile. */
  lemma ProceedFrame(r: RoomValue, a: ActionRecord, k: nat, shuffle: seq<Role> -> seq<Role>)
    ensures var s := Proceed(r, a, k, shuffle);
      s.room == r.(players := s.room.players,
                   gameState := r.gameState.(deck := s.room.gameState.deck, discardPile := s.room.gameState.discardPile))
  {
    if a.kind == Assassinate {
      match FindOpt(r.players, a.targetPlayerId)
      case Some(ti) =>
        var t := r.players[ti];
        if |t.cards| > 0 {
          DiscardFrame(r, t.id, PickIndex(k, |t.cards|), shuffle);
        }
      case None =>
    }
  }

  /**
   * `startTimer` runs its callback inside `withLock`, and each resolver takes
   * the lock again, which is then held: a timer that fires changes nothing.
   */
  function TimerFires(r: RoomValue, cb: TimerCallback, env: Env): Step<()>
  {
    var w := WithLock(r, (x: RoomValue) =>
      match cb
      case ChallengeTimeout => ResolveChallengeTimeout(x, env)
      case CounterTimeout => ResolveCounterTimeout(x, env));
    Step(w.room, w.effects, Returned(()))
  }

  lemma TimerFiresInert(r: RoomValue, cb: TimerCallback, env: Env)
    ensures TimerFires(r, cb, env) == Step(r, [], Returned(()))
  {
    if !r.lock {
      var x := r.(lock := true);
      assert ResolveChallengeTimeout(x, env).room == x;
      assert ResolveCounterTimeout(x, env).room == x;
    }
  }

  // ----- what the socket layer can ever reach -----

  /**
   * A room as the socket layer keeps it: unlocked, no current player, phase
   * `TURN_START` with no player, and no pending window.
   */
  predicate Quiet(r: RoomValue)
  {
    && !r.lock
    && r.gameState.currentPlayer.None?
    && r.gameState.phase == TurnStart(None)
    && r.gameState.challengeData.None?
    && r.gameState.counterData.None?
  }

  /** Everything that can happen to a room through the socket layer. */
  datatype Event =
    | Join(name: string, claimedId: Option<PlayerId>, socketId: string, freshId: PlayerId)
    | Start(playerId: PlayerId, env: Env)
    | Execute(playerId: PlayerId, kind: ActionKind, target: Option<PlayerId>, env: Env)
    | Challenge(playerId: PlayerId, env: Env)
    | Counter(playerId: PlayerId, block: bool, env: Env)
    | DiscardRequest(playerId: PlayerId, idx: int, env: Env)
    | Disconnect(playerId: PlayerId, now: int)
    | Reconnect(playerId: PlayerId, socketId: string)
    | Fire(callback: TimerCallback, env: Env)
    | ChallengeDeadline(env: Env)
    | CounterDeadline(env: Env)
    | Advance(now: int)

  /** The room after one event (a refused join or reconnect leaves it as it was). */
  function Deliver(r: RoomValue, e: Event): RoomValue
  {
    match e
    case Join(name, pid, sid, fid) =>
      (match OnJoinRoom(r, name, pid, sid, fid) case Joined(q, _) => q case JoinRefused(_) => r)
    case Start(pid, env) => OnStartGame(r, pid, env).room
    case Execute(pid, kind, target, env) => OnExecuteAction(r, pid, kind, target, env).room
    case Challenge(pid, env) => OnChallenge(r, pid, env).room
    case Counter(pid, block, env) => OnCounter(r, pid, block, env).room
    case DiscardRequest(pid, idx, env) => OnDiscard(r, pid, idx, env).room
    case Disconnect(pid, now) => OnDisconnect(r, pid, now).room
    case Reconnect(pid, sid) => (match OnReconnect(r, pid, sid) case Joined(q, _) => q case JoinRefused(_) => r)
    case Fire(cb, env) => TimerFires(r, cb, env).room
    case ChallengeDeadline(env) => ResolveChallengeTimeout(r, env).room
    case CounterDeadline(env) => ResolveCounterTimeout(r, env).room
    case Advance(now) => AdvancePhase(r, now).room
  }

  /** The room after a sequence of events, in order. */
  function Run(r: RoomValue, es: seq<Event>): RoomValue
  {
    if es == [] then r else Deliver(Run(r, es[..|es| - 1]), es[|es| - 1])
  }

  /** A freshly created room is quiet. */
  lemma CreatedQuiet(code: string, name: string, playerId: PlayerId, socketId: string, now: int)
    ensures Quiet(OnCreateRoom(code, name, playerId, socketId, now))
    ensures Find(OnCreateRoom(code, name, playerId, socketId, now).players, playerId) == Some(0)
  {
  }

  /** Starting a game from a quiet room leaves it quiet: `initializeGame` never names a current player. */
  lemma StartStaysQuiet(r: RoomValue, pid: PlayerId, env: Env)
    requires Quiet(r)
    ensures Quiet(OnStartGame(r, pid, env).room)
  {
    var started := r.(gameState := r.gameState.(status := Playing));
    var p := Prepared(started, env.shuffle);
    var q := Deal(p, |p.players|, env.shuffle);
    DealTouches(p, |p.players|, env.shuffle);
    SweepFrame(SetPhaseField(q, TurnStart(None)), env.now);
  }

  /** No event moves a quiet room out of quiet. */
  lemma DeliverStaysQuiet(r: RoomValue, e: Event)
    requires Quiet(r)
    ensures Quiet(Deliver(r, e))
  {
    match e
    case Start(pid, env) => StartStaysQuiet(r, pid, env);
    case Fire(cb, env) => TimerFiresInert(r, cb, env);
    case _ =>
  }

  /**
   * Through the socket layer no action is ever carried out in a room it
   * created: with no current player, every `executeAction` request naming a
   * player id is refused as not that player's turn, however the events go.
   * (A `null` id would pass the gate and be refused inside the engine instead;
   * ids are strings here.)
   */
  lemma {:induction false} NoTurnIsEverTaken(r: RoomValue, es: seq<Event>)
    requires Quiet(r)
    ensures Quiet(Run(r, es))
    ensures forall k :: 0 <= k < |es| && es[k].Execute? ==>
      OnExecuteAction(Run(r, es[..k]), es[k].playerId, es[k].kind, es[k].target, es[k].env).exit == Returned(Refused(NotYourTurn))
    decreases |es|
  {
    if es != [] {
      var n := |es| - 1;
      NoTurnIsEverTaken(r, es[..n]);
      DeliverStaysQuiet(Run(r, es[..n]), es[n]);
      forall k | 0 <= k < |es| && es[k].Execute?
        ensures OnExecuteAction(Run(r, es[..k]), es[k].playerId, es[k].kind, es[k].target, es[k].env).exit == Returned(Refused(NotYourTurn))
      {
        if k < n {
          assert es[..n][..k] == es[..k];
          assert es[..n][k] == es[k];
        } else {
          assert es[..k] == es[..n];
        }
      }
    }
  }
}
