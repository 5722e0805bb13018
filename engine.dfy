/**
 * The GameEngine as objects: a room is a record whose fields the engine
 * assigns in place, and the engine owns the timers `Map` (one pending
 * timeout per room code) and the queue of `setImmediate(advancePhase)`
 * calls. Every method is proved against the function on room values that
 * defines it, and its scheduler work against `Perform` of that function's
 * effects.
 */
module Engine {
  import opened Cards
  import opened State
  import opened Seats
  import opened Rules
  import opened Turns
  import Actions
  import Responses

  /** A room record, field by field. */
  class Room {
    var code: string
    var hostId: PlayerId
    var players: seq<Player>
    var gameState: GameState
    var lock: bool
    var createdAt: int
    var lastActivity: int

    /** The record as a value. */
    function Value(): RoomValue
      reads this
    {
      RoomValue(code, hostId, players, gameState, lock, createdAt, lastActivity)
    }

    constructor (v: RoomValue)
      ensures Value() == v
    {
      code, hostId, players, gameState := v.code, v.hostId, v.players, v.gameState;
      lock, createdAt, lastActivity := v.lock, v.createdAt, v.lastActivity;
    }

    /** Overwrites every field with those of `v`. */
    method Store(v: RoomValue)
      modifies this
      ensures Value() == v
    {
      code, hostId, players, gameState := v.code, v.hostId, v.players, v.gameState;
      lock, createdAt, lastActivity := v.lock, v.createdAt, v.lastActivity;
    }
  }

  /** A pending `setTimeout`: its delay and which timeout it resolves. */
  datatype Timer = Timer(seconds: int, callback: TimerCallback)

  /** The engine's scheduler: the timers by room code, and the deferred `advancePhase` calls in order. */
  datatype Schedule = Schedule(timers: map<string, Timer>, immediates: seq<string>)

  /** The scheduler after a room's effects, in order. */
  function Perform(sc: Schedule, code: string, effects: seq<Effect>): (sc': Schedule)
    decreases |effects|
  {
    if effects == [] then sc
    else
      var prior := Perform(sc, code, effects[..|effects| - 1]);
      match effects[|effects| - 1]
      case ClearTimer => prior.(timers := prior.timers - {code})
      case ScheduleAdvance => prior.(immediates := prior.immediates + [code])
      case StartTimer(seconds, cb) => prior.(timers := prior.timers[code := Timer(seconds, cb)])
  }

  /** Effects asked for one after the other are performed one after the other. */
  lemma {:induction false} PerformConcat(sc: Schedule, code: string, e1: seq<Effect>, e2: seq<Effect>)
    ensures Perform(sc, code, e1 + e2) == Perform(Perform(sc, code, e1), code, e2)
    decreases |e2|
  {
    if e2 == [] {
      assert e1 + e2 == e1;
    } else {
      var n := |e2| - 1;
      assert (e1 + e2)[..|e1 + e2| - 1] == e1 + e2[..n];
      PerformConcat(sc, code, e1, e2[..n]);
    }
  }

  /**
   * A room's effects touch no other room's timer, and only append to the
   * queue of deferred calls, each for that room.
   */
  lemma {:induction false} PerformElsewhere(sc: Schedule, code: string, effects: seq<Effect>, other: string)
    requires other != code
    ensures var sc' := Perform(sc, code, effects);
      && (other in sc'.timers <==> other in sc.timers)
      && (other in sc.timers ==> sc'.timers[other] == sc.timers[other])
      && |sc.immediates| <= |sc'.immediates| && sc'.immediates[..|sc.immediates|] == sc.immediates
      && forall k :: |sc.immediates| <= k < |sc'.immediates| ==> sc'.immediates[k] == code
    decreases |effects|
  {
    if effects != [] {
      PerformElsewhere(sc, code, effects[..|effects| - 1], other);
    }
  }

  /** The engine: timers by room code and the deferred `advancePhase` queue. */
  class GameEngine {
    var timers: map<string, Timer>
    var immediates: seq<string>

    function Sched(): Schedule
      reads this
    {
      Schedule(timers, immediates)
    }

    constructor ()
      ensures Sched() == Schedule(map[], [])
    {
      timers, immediates := map[], [];
    }

    // ----- startTimer / clearTimer -----

    /** `clearTimer(room)`: cancel and forget the room's timer, if any. */
    method ClearTimer(code: string)
      modifies this
      ensures Sched() == Perform(old(Sched()), code, [Effect.ClearTimer])
      ensures code !in timers
    {
      assert [Effect.ClearTimer][..0] == [];
      if code in timers {
        timers := timers - {code};
      } else {
        assert timers - {code} == timers;
      }
    }

    /** `startTimer(room, seconds, callback)`: the room's previous timer is replaced. */
    method StartTimer(code: string, seconds: int, callback: TimerCallback)
      modifies this
      ensures Sched() == Perform(old(Sched()), code, [Effect.StartTimer(seconds, callback)])
      ensures timers.Keys == old(timers.Keys) + {code} && timers[code] == Timer(seconds, callback)
    {
      ClearTimer(code);
      timers := timers[code := Timer(seconds, callback)];
      assert [Effect.StartTimer(seconds, callback)][..0] == [];
    }

    /** `setImmediate(() => this.advancePhase(room))`. */
    method Defer(code: string)
      modifies this
      ensures Sched() == Perform(old(Sched()), code, [ScheduleAdvance])
    {
      immediates := immediates + [code];
      assert [ScheduleAdvance][..0] == [];
    }

    /** Writes back a room value computed by the engine's rules, with its effects. */
    method Commit(room: Room, v: RoomValue, effects: seq<Effect>)
      modifies this, room
      ensures room.Value() == v
      ensures Sched() == Perform(old(Sched()), old(room.code), effects)
    {
      var code := room.code;
      room.Store(v);
      var sc := Perform(Sched(), code, effects);
      timers, immediates := sc.timers, sc.immediates;
    }

    // ----- withLock -----

    /** The entry of `withLock(room, fn)`: refused when the lock is held, otherwise the lock is taken. */
    method Acquire(room: Room) returns (entered: bool)
      modifies room
      ensures entered <==> !old(room.lock)
      ensures room.Value() == old(room.Value()).(lock := true)
    {
      entered := !room.lock;
      room.lock := true;
    }

    /** The `finally` of `withLock`: the lock is released on every way out. */
    method Release(room: Room)
      modifies room
      ensures room.Value() == old(room.Value()).(lock := false)
    {
      room.lock := false;
    }

    // ----- checkDisconnectedPlayers / forceEliminatePlayer -----

    /** `forceEliminatePlayer(room, playerId)`. */
    method ForceEliminatePlayer(room: Room, id: PlayerId)
      modifies room
      ensures room.Value() == ForceEliminate(old(room.Value()), id)
    {
      var seat := Find(room.players, id);
      if seat.None? {
        return;
      }
      var i := seat.value;
      var p := room.players[i];
      room.players := room.players[i := p.(isAlive := false, cards := [])];
      room.gameState := room.gameState.(log := room.gameState.log + [ForcedOut(p.name)]);
    }

    /** `checkDisconnectedPlayers(room)`: collect the expired players in seating order, then eliminate each. */
    method CheckDisconnectedPlayers(room: Room, now: int)
      modifies room
      ensures room.Value() == Sweep(old(room.Value()), now)
    {
      var v := room.Value();
      var gone: seq<PlayerId> := [];
      for k := 0 to |room.players|
        invariant room.Value() == v
        invariant gone == ExpiredIds(v.players[..k], now)
      {
        var p := room.players[k];
        ExpiredIdsStep(v.players, now, k + 1);
        if !p.connected && p.disconnectTime.Some? && p.disconnectTime.value != 0 {
          if now - p.disconnectTime.value > DisconnectGrace {
            gone := gone + [p.id];
          }
        }
      }
      assert v.players[..|v.players|] == v.players;
      for k := 0 to |gone|
        invariant room.Value() == EliminateAll(v, gone[..k])
      {
        ForceEliminatePlayer(room, gone[k]);
        assert gone[..k + 1][..k] == gone[..k];
      }
      assert gone[..|gone|] == gone;
    }

    // ----- setPhase -----

    /** `setPhase(room, newPhase)`: under its own `withLock`, clear the timer, set the phase, sweep, defer `advancePhase`. */
    method SetPhase(room: Room, phase: Phase, now: int)
      modifies this, room
      ensures room.Value() == Rules.SetPhase(old(room.Value()), phase, now).room
      ensures Sched() == Perform(old(Sched()), old(room.code), Rules.SetPhase(old(room.Value()), phase, now).effects)
    {
      var v := room.Value();
      var entered := Acquire(room);
      if !entered {
        return;
      }
      ClearTimer(room.code);
      room.gameState := room.gameState.(phase := phase);
      assert room.Value() == SetPhaseField(v, phase).(lock := true);
      CheckDisconnectedPlayers(room, now);
      Defer(room.code);
      Release(room);
      SweepFrame(SetPhaseField(v, phase).(lock := true), now);
      SweepLockIndependent(SetPhaseField(v, phase), now);
      PerformConcat(old(Sched()), v.code, [Effect.ClearTimer], [ScheduleAdvance]);
      assert [Effect.ClearTimer] + [ScheduleAdvance] == [Effect.ClearTimer, ScheduleAdvance];
    }

    // ----- the deck -----

    /** `drawCard(room)`: an empty deck is refilled from the shuffled discard pile, then the top is popped. */
    method DrawCard(room: Room, shuffle: seq<Role> -> seq<Role>) returns (card: Option<Role>)
      modifies room
      ensures room.Value() == Rules.DrawCard(old(room.Value()), shuffle).room
      ensures card == Rules.DrawCard(old(room.Value()), shuffle).value
    {
      if |room.gameState.deck| == 0 {
        room.gameState := room.gameState.(deck := shuffle(room.gameState.discardPile), discardPile := []);
      }
      var deck := room.gameState.deck;
      if deck == [] {
        card := None;
      } else {
        card := Some(deck[|deck| - 1]);
        room.gameState := room.gameState.(deck := deck[..|deck| - 1]);
      }
    }

    /** `discardCard(room, playerId, cardIndex)`. */
    method DiscardCard(room: Room, id: PlayerId, idx: int, shuffle: seq<Role> -> seq<Role>) returns (ok: bool)
      modifies room
      ensures room.Value() == Rules.DiscardCard(old(room.Value()), id, idx, shuffle).room
      ensures ok == Rules.DiscardCard(old(room.Value()), id, idx, shuffle).value
      ensures room.code == old(room.code)
    {
      var seat := Find(room.players, id);
      if seat.None? {
        return false;
      }
      var i := seat.value;
      var p := room.players[i];
      if !p.isAlive {
        return false;
      }
      if idx < 0 || idx >= |p.cards| {
        return false;
      }
      var card := p.cards[idx];
      room.players := room.players[i := p.(cards := Without(p.cards, idx))];
      room.gameState := room.gameState.(discardPile := room.gameState.discardPile + [card]);
      var rest := room.players[i].cards;
      if |rest| == 0 {
        room.players := room.players[i := room.players[i].(isAlive := false)];
      } else if |rest| < 2 {
        var drawn := DrawCard(room, shuffle);
        room.players := room.players[i := room.players[i].(cards := rest + Flatten(drawn))];
      }
      return true;
    }

    // ----- initializeGame -----

    /** One seat of `initializeGame`'s `forEach`: 2 coins, two draws, alive. */
    method DealSeatInPlace(room: Room, k: nat, shuffle: seq<Role> -> seq<Role>)
      requires k < |room.players|
      modifies room
      ensures room.Value() == DealSeat(old(room.Value()), k, shuffle)
    {
      ghost var x := room.Value();
      var first := DrawCard(room, shuffle);
      ghost var d1 := Rules.DrawCard(x, shuffle);
      var second := DrawCard(room, shuffle);
      ghost var d2 := Rules.DrawCard(d1.room, shuffle);
      assert room.Value() == d2.room && first == d1.value && second == d2.value;
      var player := room.players[k];
      room.players := room.players[k := player.(coins := 2, cards := Flatten(first) + Flatten(second), isAlive := true)];
    }

    /** The `forEach` of `initializeGame`, seat by seat in order. */
    method DealAll(room: Room, shuffle: seq<Role> -> seq<Role>)
      modifies room
      ensures room.Value() == Deal(old(room.Value()), |old(room.players)|, shuffle)
    {
      var p := room.Value();
      for k := 0 to |room.players|
        invariant room.Value() == Deal(p, k, shuffle)
      {
        DealSeatInPlace(room, k, shuffle);
        DealStep(p, k, shuffle);
      }
    }

    /** `initializeGame(room)`: a fresh deck, the deal, then `TURN_START`. */
    method InitializeGame(room: Room, env: Env)
      modifies this, room
      ensures room.Value() == Turns.InitializeGame(old(room.Value()), env).room
      ensures Sched() == Perform(old(Sched()), old(room.code), Turns.InitializeGame(old(room.Value()), env).effects)
    {
      ghost var p := Prepared(room.Value(), env.shuffle);
      room.gameState := room.gameState.(deck := InitializeDeck(env.shuffle), discardPile := [], turnIndex := 0, lastAction := None);
      assert room.Value() == p;
      DealAll(room, env.shuffle);
      DealTouches(p, |p.players|, env.shuffle);
      SetPhase(room, TurnStart(None), env.now);
    }

    // ----- nextTurn / advancePhase -----

    /** The `while` of `nextTurn`: from the seat after `turnIndex`, the first alive seat. */
    method NextAliveSeat(ps: seq<Player>, turnIndex: nat) returns (next: nat)
      requires exists i :: 0 <= i < |ps| && ps[i].isAlive
      ensures var s := StartSeat(turnIndex, |ps|);
        && FirstOffset(ps, s, 0, false) < |ps|
        && next == Walk(s, FirstOffset(ps, s, 0, false), |ps|)
      ensures next < |ps| && ps[next].isAlive
    {
      var n := |ps|;
      var s := StartSeat(turnIndex, n);
      ghost var i :| 0 <= i < n && ps[i].isAlive;
      FirstOffsetIs(ps, s, 0, false, OffsetOf(s, i, n));
      ghost var k0 := FirstOffset(ps, s, 0, false);
      next := (turnIndex + 1) % n;
      ghost var k := 0;
      while !ps[next].isAlive
        invariant k <= k0 && next == Walk(s, k, n)
        decreases k0 - k
      {
        WalkStep(s, k, n);
        next := (next + 1) % n;
        k := k + 1;
      }
    }

    /**
     * `nextTurn(room)`: game over with at most one player alive; otherwise
     * walk to the next alive seat, and skip it (logged, then again) when it is
     * disconnected. When no alive player is connected the source recurses
     * until the stack overflows; that is `raised` here, before any change.
     */
    method NextTurn(room: Room, now: int) returns (raised: bool)
      modifies this, room
      ensures room.Value() == Turns.NextTurn(old(room.Value()), now).room
      ensures raised <==> Turns.NextTurn(old(room.Value()), now).exit.Raised?
      ensures Sched() == Perform(old(Sched()), old(room.code), Turns.NextTurn(old(room.Value()), now).effects)
      decreases Distance(room.players, room.gameState.turnIndex)
    {
      var v := room.Value();
      ghost var t := v.gameState.turnIndex;
      var alive := Living(room.players);
      if |alive| <= 1 {
        var winner := if alive == [] then None else Some(alive[0].id);
        assert PickSeat(v.players, t) == Over(winner);
        room.gameState := room.gameState.(winner := winner);
        SetPhase(room, GameOver(winner), now);
        return false;
      }
      var n := |room.players|;
      var s := StartSeat(room.gameState.turnIndex, n);
      if FirstOffset(room.players, s, 0, true) == n {
        assert PickSeat(v.players, t) == Stuck;
        return true;
      }
      assert v.players[Walk(s, FirstOffset(v.players, s, 0, true), n)].isAlive;
      var next := NextAliveSeat(room.players, room.gameState.turnIndex);
      room.gameState := room.gameState.(turnIndex := next, currentPlayer := Some(room.players[next].id));
      assert room.Value() == Rotated(v, next);
      var current := room.players[next];
      if !current.connected {
        assert PickSeat(v.players, t) == Skip(next);
        room.gameState := room.gameState.(log := room.gameState.log + [AutoSkipped(current.name)]);
        PickSkip(v.players, t);
        assert Turns.NextTurn(v, now) == Turns.NextTurn(room.Value(), now);
        raised := NextTurn(room, now);
        return;
      }
      assert PickSeat(v.players, t) == Land(next);
      assert Turns.NextTurn(v, now) == Rules.SetPhase(room.Value(), TurnStart(Some(current.id)), now);
      SetPhase(room, TurnStart(Some(current.id)), now);
      raised := false;
    }

    /** `advancePhase(room)`: a disconnected current player is skipped; every phase case is empty. */
    method AdvancePhase(room: Room, now: int) returns (raised: bool)
      modifies this, room
      ensures room.Value() == Turns.AdvancePhase(old(room.Value()), now).room
      ensures raised <==> Turns.AdvancePhase(old(room.Value()), now).exit.Raised?
      ensures Sched() == Perform(old(Sched()), old(room.code), Turns.AdvancePhase(old(room.Value()), now).effects)
    {
      var current := GetCurrentPlayer(room.Value());
      if current.Some? && !room.players[current.value].connected {
        room.gameState := room.gameState.(log := room.gameState.log + [AutoSkipped(room.players[current.value].name)]);
        raised := NextTurn(room, now);
        return;
      }
      raised := false;
    }

    /** `withLock(room, () => this.nextTurn(room))`, as the socket handlers nest it. */
    method LockedNextTurn(room: Room, now: int)
      modifies this, room
      ensures room.Value() == WithLock(old(room.Value()), (y: RoomValue) => Turns.NextTurn(y, now)).room
      ensures Sched() == Perform(old(Sched()), old(room.code), WithLock(old(room.Value()), (y: RoomValue) => Turns.NextTurn(y, now)).effects)
    {
      var entered := Acquire(room);
      if entered {
        var raised := NextTurn(room, now);
        Release(room);
      }
    }

    // ----- the action and response dispatchers, on the room's value -----

    /** `executeAction(room, playerId, actionType, targetPlayerId)`. */
    method ExecuteAction(room: Room, id: PlayerId, kind: ActionKind, target: Option<PlayerId>, env: Env)
      returns (result: Option<ActionRecord>, raised: bool)
      modifies this, room
      ensures var s := Actions.ExecuteAction(old(room.Value()), id, kind, target, env);
        && room.Value() == s.room && Sched() == Perform(old(Sched()), old(room.code), s.effects)
        && (raised <==> s.exit.Raised?) && (s.exit.Returned? ==> result == s.exit.value)
    {
      var s := Actions.ExecuteAction(room.Value(), id, kind, target, env);
      Commit(room, s.room, s.effects);
      raised := s.exit.Raised?;
      result := if s.exit.Returned? then s.exit.value else None;
    }

    /** `resolveChallenge(room, challengeData)`. */
    method ResolveChallenge(room: Room, cd: ChallengeData, env: Env)
      returns (result: Option<Responses.ChallengeResult>, raised: bool)
      modifies this, room
      ensures var s := Responses.ResolveChallenge(old(room.Value()), cd, env);
        && room.Value() == s.room && Sched() == Perform(old(Sched()), old(room.code), s.effects)
        && (raised <==> s.exit.Raised?) && (s.exit.Returned? ==> result == Some(s.exit.value))
    {
      var s := Responses.ResolveChallenge(room.Value(), cd, env);
      Commit(room, s.room, s.effects);
      raised := s.exit.Raised?;
      result := if s.exit.Returned? then Some(s.exit.value) else None;
    }

    /** `handleChallenge(room, challengerId)`. */
    method HandleChallenge(room: Room, id: PlayerId, env: Env)
      returns (result: Option<Responses.ChallengeResult>, raised: bool)
      modifies this, room
      ensures var s := Responses.HandleChallenge(old(room.Value()), id, env);
        && room.Value() == s.room && Sched() == Perform(old(Sched()), old(room.code), s.effects)
        && (raised <==> s.exit.Raised?) && (s.exit.Returned? ==> result == s.exit.value)
    {
      var s := Responses.HandleChallenge(room.Value(), id, env);
      Commit(room, s.room, s.effects);
      raised := s.exit.Raised?;
      result := if s.exit.Returned? then s.exit.value else None;
    }

    /** `handleCounter(room, blockerId, block)`. */
    method HandleCounter(room: Room, id: PlayerId, block: bool, env: Env)
      returns (result: Option<Responses.CounterResult>, raised: bool)
      modifies this, room
      ensures var s := Responses.HandleCounter(old(room.Value()), id, block, env);
        && room.Value() == s.room && Sched() == Perform(old(Sched()), old(room.code), s.effects)
        && (raised <==> s.exit.Raised?) && (s.exit.Returned? ==> result == s.exit.value)
    {
      var s := Responses.HandleCounter(room.Value(), id, block, env);
      Commit(room, s.room, s.effects);
      raised := s.exit.Raised?;
      result := if s.exit.Returned? then s.exit.value else None;
    }

    /** `handleDiscard(room, playerId, cardIndex)`. */
    method HandleDiscard(room: Room, id: PlayerId, idx: int, env: Env)
      returns (result: Option<bool>, raised: bool)
      modifies this, room
      ensures var s := Responses.HandleDiscard(old(room.Value()), id, idx, env);
        && room.Value() == s.room && Sched() == Perform(old(Sched()), old(room.code), s.effects)
        && (raised <==> s.exit.Raised?) && (s.exit.Returned? ==> result == s.exit.value)
    {
      var s := Responses.HandleDiscard(room.Value(), id, idx, env);
      Commit(room, s.room, s.effects);
      raised := s.exit.Raised?;
      result := if s.exit.Returned? then s.exit.value else None;
    }
  }
}
