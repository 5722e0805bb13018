/**
 * The room record the engine, the socket layer and the room table share, as values:
 * players, game state, pending challenge/counter windows, and the effects an operation
 * asks of the engine's scheduler.
 */
module State {
  import opened Cards

  datatype Option<+T> = None | Some(value: T)

  function Flatten<T>(o: Option<T>): (s: seq<T>)
    ensures |s| <= 1
    ensures o.None? <==> s == []
    ensures o.Some? ==> s == [o.value]
  {
    match o
    case None => []
    case Some(v) => [v]
  }

  type PlayerId = string

  datatype Player = Player(
    id: PlayerId,
    name: string,
    coins: int,
    cards: seq<Role>,
    isAlive: bool,
    socketId: Option<string>,
    connected: bool,
    disconnectTime: Option<int>)

  /** The action names `executeAction` switches on; any other name matches no case. */
  datatype ActionKind =
    | Income | ForeignAid | Coup | Tax | Assassinate | Steal | Exchange
    | Unrecognized(name: string)

  /** One game-log line, by kind; the wording of the source's strings is not modelled. */
  datatype LogEntry =
    | ForcedOut(player: string)
    | AutoSkipped(player: string)
    | IncomeTaken(player: string)
    | ForeignAidSought(player: string)
    | ForeignAidReceived(player: string)
    | CoupUnaffordable(player: string)
    | TargetUnavailable(player: string)
    | CoupLaunched(player: string)
    | CardLost(player: string)
    | Eliminated(player: string)
    | TaxClaimed(player: string)
    | TaxCollected(player: string)
    | AssassinationUnaffordable(player: string)
    | AssassinationClaimed(player: string, target: string)
    | Assassinated(player: string)
    | StealClaimed(player: string)
    | NothingToSteal(player: string)
    | Stole(player: string, amount: int)
    | ExchangeClaimed(player: string)
    | ExchangeDone(player: string)
    | ClaimUpheld(player: string, role: Option<Role>)
    | ChallengerPenalized(player: string)
    | ClaimRefuted(player: string, role: Option<Role>)
    | ActorPenalized(player: string)
    | Blocked(blocker: string, actor: string)
    | BlockFailed(blocker: string)
    | AidGranted(player: string)
    | BlockDeclined(blocker: string)
    | ChallengeTimedOut(actor: string)
    | CounterTimedOut
    | CardDiscarded(player: string)

  /** The record `executeAction` returns and stores in pending windows. */
  datatype ActionRecord = ActionRecord(
    playerId: PlayerId,
    playerName: string,
    kind: ActionKind,
    targetPlayerId: Option<PlayerId>,
    success: bool,
    log: seq<LogEntry>)

  datatype ChallengeData = ChallengeData(action: ActionRecord, challengers: seq<PlayerId>)

  datatype CounterData = CounterData(action: ActionRecord, blockerRole: Role, potentialBlockers: seq<PlayerId>)

  /**
   * `{ type, data }` of the source: only the player a turn starts for and the
   * winner are data. The source's game-over data is the winner's player object;
   * the phase keeps its id, and the view finds the object by it.
   */
  datatype Phase =
    | TurnStart(turnOf: Option<PlayerId>)
    | ActionDeclared
    | ChallengeWindow
    | CounterWindow
    | Discard
    | Resolve
    | GameOver(winner: Option<PlayerId>)

  datatype Status = Waiting | Playing

  datatype GameState = GameState(
    status: Status,
    turnIndex: nat,
    currentPlayer: Option<PlayerId>,
    deck: seq<Role>,
    discardPile: seq<Role>,
    lastAction: Option<ActionRecord>,
    phase: Phase,
    log: seq<LogEntry>,
    challengeData: Option<ChallengeData>,
    counterData: Option<CounterData>,
    winner: Option<PlayerId>)

  /** A room: players in seating (insertion) order, the game state and the lock flag. */
  datatype RoomValue = RoomValue(
    code: string,
    hostId: PlayerId,
    players: seq<Player>,
    gameState: GameState,
    lock: bool,
    createdAt: int,
    lastActivity: int)

  /** The game state a freshly created room starts with. */
  const FreshGameState: GameState :=
    GameState(Waiting, 0, None, [], [], None, TurnStart(None), [], None, None, None)

  /** The two callbacks the socket layer arms timers with. */
  datatype TimerCallback = ChallengeTimeout | CounterTimeout

  /** What an operation asks of the engine's scheduler for its room. */
  datatype Effect =
    | ClearTimer
    | ScheduleAdvance
    | StartTimer(seconds: int, callback: TimerCallback)

  /** How an operation ends: a value, or an exception propagating to the nearest `withLock`. */
  datatype Exit<+T> = Returned(value: T) | Raised

  datatype Step<+T> = Step(room: RoomValue, effects: seq<Effect>, exit: Exit<T>)

  /** An operation that neither raises nor touches the scheduler. */
  datatype Outcome<+T> = Outcome(room: RoomValue, value: T)

  /** `s`, then return `v` unless `s` raised. */
  function Then<T>(s: Step<()>, v: T): (t: Step<T>)
    ensures t.room == s.room && t.effects == s.effects
    ensures t.exit.Raised? <==> s.exit.Raised?
    ensures t.exit.Returned? ==> t.exit.value == v
  {
    Step(s.room, s.effects, if s.exit.Raised? then Raised else Returned(v))
  }

  /** Effects already asked for before `s` ran. */
  function After<T>(effects: seq<Effect>, s: Step<T>): (t: Step<T>)
    ensures t.room == s.room && t.exit == s.exit
    ensures t.effects == effects + s.effects
  {
    s.(effects := effects + s.effects)
  }

  /**
   * What the model takes from the outside world: the clock, the shuffle, and
   * the random numbers behind `Math.floor(Math.random() * len)`, the `j`-th
   * of one call being `pick(j)`.
   */
  datatype Env = Env(now: int, shuffle: seq<Role> -> seq<Role>, pick: nat -> nat)

  // ----- players by id -----

  /** `players.get(id)`: the seat of the player with that id. */
  function Find(ps: seq<Player>, id: PlayerId): (r: Option<nat>)
    ensures r.Some? ==> r.value < |ps| && ps[r.value].id == id
    ensures r.Some? ==> forall j :: 0 <= j < r.value ==> ps[j].id != id
    ensures r.None? ==> forall j :: 0 <= j < |ps| ==> ps[j].id != id
  {
    if ps == [] then None
    else if ps[0].id == id then Some(0)
    else match Find(ps[1..], id)
      case None => None
      case Some(k) => Some(k + 1)
  }

  /** `players.get(id)` for an id that may be absent (`null` or `undefined`). */
  function FindOpt(ps: seq<Player>, id: Option<PlayerId>): (r: Option<nat>)
    ensures r.Some? ==> id.Some? && r == Find(ps, id.value)
    ensures id.Some? ==> r == Find(ps, id.value)
  {
    match id
    case None => None
    case Some(v) => Find(ps, v)
  }

  /** A JavaScript `Map` holds each key once. */
  ghost predicate DistinctIds(ps: seq<Player>)
  {
    forall i, j :: 0 <= i < j < |ps| ==> ps[i].id != ps[j].id
  }

  lemma FindInDistinct(ps: seq<Player>, i: nat)
    requires DistinctIds(ps) && i < |ps|
    ensures Find(ps, ps[i].id) == Some(i)
  {
  }

  /** Ids in seating order. */
  function Ids(ps: seq<Player>): (ids: seq<PlayerId>)
    ensures |ids| == |ps|
    ensures forall i :: 0 <= i < |ps| ==> ids[i] == ps[i].id
  {
    seq(|ps|, i requires 0 <= i < |ps| => ps[i].id)
  }

  function SetPlayer(r: RoomValue, i: nat, p: Player): RoomValue
    requires i < |r.players|
  {
    r.(players := r.players[i := p])
  }

  function AddCoins(r: RoomValue, i: nat, amount: int): RoomValue
    requires i < |r.players|
  {
    SetPlayer(r, i, r.players[i].(coins := r.players[i].coins + amount))
  }

  function AppendLog(r: RoomValue, entries: seq<LogEntry>): RoomValue
  {
    r.(gameState := r.gameState.(log := r.gameState.log + entries))
  }

  function SetPhaseField(r: RoomValue, p: Phase): RoomValue
  {
    r.(gameState := r.gameState.(phase := p))
  }

  /** A `Math.floor(Math.random() * n)` choice: any index below `n`, named by `k`. */
  function PickIndex(k: nat, n: nat): (i: nat)
    requires n > 0
    ensures i < n
  {
    k % n
  }

  /** Every card in the room: hands, deck and discard pile. */
  function HandCards(ps: seq<Player>): multiset<Role>
  {
    if ps == [] then multiset{} else HandCards(ps[..|ps| - 1]) + multiset(ps[|ps| - 1].cards)
  }

  function AllCards(r: RoomValue): multiset<Role>
  {
    HandCards(r.players) + multiset(r.gameState.deck) + multiset(r.gameState.discardPile)
  }

  lemma {:induction false} HandCardsUpdate(ps: seq<Player>, i: nat, p: Player)
    requires i < |ps|
    ensures HandCards(ps[i := p]) + multiset(ps[i].cards) == HandCards(ps) + multiset(p.cards)
    decreases |ps|
  {
    var n := |ps| - 1;
    var qs := ps[i := p];
    assert qs[n] == if i == n then p else ps[n];
    if i == n {
      assert qs[..n] == ps[..n];
    } else {
      assert qs[..n] == ps[..n][i := p];
      HandCardsUpdate(ps[..n], i, p);
      assert ps[..n][i] == ps[i];
      var a, b, c, d := HandCards(ps[..n]), multiset(ps[n].cards), multiset(ps[i].cards), multiset(p.cards);
      assert HandCards(qs[..n]) + c == a + d;
      assert HandCards(qs) == HandCards(qs[..n]) + b;
      assert HandCards(ps) == a + b;
      assert HandCards(qs) + c == HandCards(ps) + d by {
        assert HandCards(qs) + c == (HandCards(qs[..n]) + c) + b;
        assert HandCards(ps) + d == (a + d) + b;
      }
    }
  }
}
