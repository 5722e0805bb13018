/**
 * `executeAction`: the seven actions of a turn. Each either applies at once,
 * fails with a `success = false` record, or parks its claim in a challenge
 * or counter window; a settled, successful action then advances the turn.
 */
module Actions {
  import opened Cards
  import opened State
  import opened Rules
  import opened Turns

  /**
   * Where the `switch` left the room: the scheduler effects it asked for, the
   * record it built, and whether it fell through to the turn check after the
   * `switch` (`settled`) rather than returning early.
   */
  datatype Declared = Declared(room: RoomValue, effects: seq<Effect>, record: ActionRecord, settled: bool)

  /** The gate in front of the `switch`: a known, alive actor, phase `TURN_START`, and the actor's turn. */
  predicate Accepts(r: RoomValue, id: PlayerId)
  {
    && Find(r.players, id).Some?
    && r.players[Find(r.players, id).value].isAlive
    && r.gameState.phase.TurnStart?
    && r.gameState.currentPlayer == Some(id)
  }

  /** The role an action claims, which a challenge checks; the other actions claim none. */
  function ClaimedRole(kind: ActionKind): (role: Option<Role>)
    ensures role.Some? <==> kind in {Tax, Assassinate, Steal, Exchange}
  {
    match kind
    case Tax => Some(Duke)
    case Assassinate => Some(Assassin)
    case Steal => Some(Captain)
    case Exchange => Some(Ambassador)
    case _ => None
  }

  function Claim(p: Player, kind: ActionKind, target: Option<PlayerId>, success: bool, log: seq<LogEntry>): ActionRecord
  {
    ActionRecord(p.id, p.name, kind, target, success, log)
  }

  // ----- coins -----

  /** Coins held at the table. */
  function CoinTotal(ps: seq<Player>): int
  {
    if ps == [] then 0 else CoinTotal(ps[..|ps| - 1]) + ps[|ps| - 1].coins
  }

  lemma {:induction false} CoinTotalUpdate(ps: seq<Player>, i: nat, p: Player)
    requires i < |ps|
    ensures CoinTotal(ps[i := p]) == CoinTotal(ps) - ps[i].coins + p.coins
    decreases |ps|
  {
    var n := |ps| - 1;
    if i < n {
      assert ps[i := p][..n] == ps[..n][i := p];
      CoinTotalUpdate(ps[..n], i, p);
    } else {
      assert ps[i := p][..n] == ps[..n];
    }
  }

  lemma {:induction false} SameCoinsTotal(ps: seq<Player>, qs: seq<Player>)
    requires SameCoins(ps, qs)
    ensures CoinTotal(qs) == CoinTotal(ps)
    decreases |ps|
  {
    if ps != [] {
      var n := |ps| - 1;
      assert SameCoins(ps[..n], qs[..n]);
      SameCoinsTotal(ps[..n], qs[..n]);
    }
  }

  // ----- who may block -----

  /** Alive, holding `role`, and with an id equal to `id` (`same`) or different from it. */
  predicate Fits(p: Player, role: Role, id: PlayerId, same: bool)
  {
    p.isAlive && role in p.cards && ((p.id == id) == same)
  }

  /** The ids of the fitting players, in seating order: the source's `filter(...).map(p => p.id)`. */
  function Blockers(ps: seq<Player>, role: Role, id: PlayerId, same: bool): (ids: seq<PlayerId>)
    ensures |ids| <= |ps|
    ensures ids == [] <==> forall i :: 0 <= i < |ps| ==> !Fits(ps[i], role, id, same)
    ensures forall k :: 0 <= k < |ids| ==> exists i :: 0 <= i < |ps| && Fits(ps[i], role, id, same) && ps[i].id == ids[k]
  {
    if ps == [] then []
    else
      var rest := Blockers(ps[1..], role, id, same);
      assert forall i :: 0 <= i < |ps[1..]| ==> ps[1..][i] == ps[i + 1];
      (if Fits(ps[0], role, id, same) then [ps[0].id] else []) + rest
  }

  // ----- the pieces the actions share -----

  /**
   * The target loses a card chosen by `k`, logged as `lost`; a target with no
   * card left is marked dead instead. Coins and seats never change.
   */
  function Strike(r: RoomValue, ti: nat, k: nat, lost: LogEntry, shuffle: seq<Role> -> seq<Role>): (o: Outcome<LogEntry>)
    requires ti < |r.players|
    ensures SameCoins(r.players, o.room.players)
    ensures o.room == r.(players := o.room.players,
                         gameState := r.gameState.(deck := o.room.gameState.deck, discardPile := o.room.gameState.discardPile))
    ensures o.value == if |r.players[ti].cards| > 0 then lost else Eliminated(r.players[ti].name)
  {
    var p := r.players[ti];
    if |p.cards| > 0 then
      var idx := PickIndex(k, |p.cards|);
      DiscardFrame(r, p.id, idx, shuffle);
      Outcome(DiscardCard(r, p.id, idx, shuffle).room, lost)
    else
      Outcome(SetPlayer(r, ti, p.(isAlive := false)), Eliminated(p.name))
  }

  /**
   * What losing an influence does to player `p`, now `q`: a hand of two
   * draws a replacement and stays alive at two cards; a hand of one or none
   * ends empty and the player dies. Id and name stay.
   */
  ghost predicate Struck(p: Player, q: Player)
  {
    && q.id == p.id && q.name == p.name
    && (|p.cards| == 2 ==> |q.cards| == 2 && q.isAlive)
    && (|p.cards| < 2 ==> q.cards == [] && !q.isAlive)
  }

  /** A successful discard from seat `ti`, whose id leads to it, strikes that player and nobody else. */
  lemma DiscardStrikes(r: RoomValue, ti: nat, idx: int, shuffle: seq<Role> -> seq<Role>)
    requires ti < |r.players| && IsShuffle(shuffle) && Find(r.players, r.players[ti].id) == Some(ti)
    requires r.players[ti].isAlive && 0 <= idx < |r.players[ti].cards|
    ensures var q := DiscardCard(r, r.players[ti].id, idx, shuffle).room.players;
      && DiscardCard(r, r.players[ti].id, idx, shuffle).value
      && |q| == |r.players| && Struck(r.players[ti], q[ti])
      && (forall j :: 0 <= j < |q| && j != ti ==> q[j] == r.players[j])
  {
    DiscardHandSize(r, r.players[ti].id, idx, shuffle);
    DiscardFrame(r, r.players[ti].id, idx, shuffle);
  }

  /**
   * A strike on a live player whose id leads to seat `ti` under a true
   * shuffle: the discard goes through when there is a card to lose, the
   * player is struck, no other seat changes, and no card is lost or made up.
   */
  lemma StrikeHits(r: RoomValue, ti: nat, k: nat, lost: LogEntry, shuffle: seq<Role> -> seq<Role>)
    requires ti < |r.players| && IsShuffle(shuffle) && Find(r.players, r.players[ti].id) == Some(ti)
    requires r.players[ti].isAlive
    ensures var o := Strike(r, ti, k, lost, shuffle); var q := o.room.players;
      && |q| == |r.players| && Struck(r.players[ti], q[ti])
      && (forall j :: 0 <= j < |q| && j != ti ==> q[j] == r.players[j])
      && AllCards(o.room) == AllCards(r)
  {
    var p := r.players[ti];
    if |p.cards| > 0 {
      var idx := PickIndex(k, |p.cards|);
      DiscardStrikes(r, ti, idx, shuffle);
      DiscardConservesCards(r, p.id, idx, shuffle);
    } else {
      assert multiset(p.cards) == multiset{};
      ReplaceHand(r, ti, p.(isAlive := false));
      var q := SetPlayer(r, ti, p.(isAlive := false));
      assert Strike(r, ti, k, lost, shuffle).room == q;
      assert AllCards(q) + multiset{} == AllCards(r) + multiset{};
      assert AllCards(q) == AllCards(q) + multiset{} && AllCards(r) == AllCards(r) + multiset{};
    }
  }

  /** `min(target.coins, 2)`: what a steal takes. */
  function StealAmount(coins: int): (amount: int)
    ensures amount <= 2 && amount <= coins
    ensures coins >= 0 ==> 0 <= amount
  {
    if coins < 2 then coins else 2
  }

  /** The steal's transfer: the amount leaves the target, then reaches the actor. */
  function Transfer(r: RoomValue, i: nat, ti: nat): (o: Outcome<int>)
    requires i < |r.players| && ti < |r.players|
    ensures o.value == StealAmount(r.players[ti].coins)
    ensures o.room == r.(players := o.room.players) && |o.room.players| == |r.players|
  {
    var amount := StealAmount(r.players[ti].coins);
    Outcome(AddCoins(AddCoins(r, ti, -amount), i, amount), amount)
  }

  /** On the player list alone: `amount` leaving seat `ti` and then reaching seat `i` keeps the total. */
  lemma MoveCoinsTotal(ps: seq<Player>, i: nat, ti: nat, amount: int, p1: Player, p2: Player)
    requires i < |ps| && ti < |ps|
    requires p1 == ps[ti].(coins := ps[ti].coins - amount)
    requires p2 == ps[ti := p1][i].(coins := ps[ti := p1][i].coins + amount)
    ensures CoinTotal(ps[ti := p1][i := p2]) == CoinTotal(ps)
  {
    CoinTotalUpdate(ps, ti, p1);
    CoinTotalUpdate(ps[ti := p1], i, p2);
  }

  /** The players a transfer leaves: seat `ti` pays, then seat `i` is paid. */
  lemma TransferSeats(r: RoomValue, i: nat, ti: nat)
    requires i < |r.players| && ti < |r.players|
    ensures var ps := r.players; var amount := StealAmount(ps[ti].coins);
      var p1 := ps[ti].(coins := ps[ti].coins - amount);
      Transfer(r, i, ti).room.players == ps[ti := p1][i := ps[ti := p1][i].(coins := ps[ti := p1][i].coins + amount)]
  {
  }

  /** A steal moves coins between the pair and nowhere else: the table's total is unchanged. */
  lemma TransferMoves(r: RoomValue, i: nat, ti: nat)
    requires i < |r.players| && ti < |r.players|
    ensures var o := Transfer(r, i, ti); var q := o.room.players;
      && CoinTotal(q) == CoinTotal(r.players)
      && (i != ti ==> q[i].coins == r.players[i].coins + o.value && q[ti].coins == r.players[ti].coins - o.value)
      && (r.players[ti].coins >= 0 ==> q[ti].coins >= 0)
      && (forall j :: 0 <= j < |q| && j != i && j != ti ==> q[j] == r.players[j])
  {
    var ps := r.players;
    var amount := StealAmount(ps[ti].coins);
    var p1 := ps[ti].(coins := ps[ti].coins - amount);
    var p2 := ps[ti := p1][i].(coins := ps[ti := p1][i].coins + amount);
    TransferSeats(r, i, ti);
    MoveCoinsTotal(ps, i, ti, amount, p1, p2);
  }

  /** Park the claim in a challenge window: `challengeData` with no challengers, then `setPhase(CHALLENGE_WINDOW)`. */
  function OpenChallenge(r: RoomValue, rec: ActionRecord, now: int): (d: Declared)
  {
    var w := SetPhase(r.(gameState := r.gameState.(challengeData := Some(ChallengeData(rec, [])))), ChallengeWindow, now);
    Declared(w.room, w.effects, rec, false)
  }

  /** Park the claim in a counter window for `blockers`, then `setPhase(COUNTER_WINDOW)`. */
  function OpenCounter(r: RoomValue, rec: ActionRecord, role: Role, blockers: seq<PlayerId>, now: int): (d: Declared)
  {
    var w := SetPhase(r.(gameState := r.gameState.(counterData := Some(CounterData(rec, role, blockers)))), CounterWindow, now);
    Declared(w.room, w.effects, rec, false)
  }

  /** The exchange's split: keep the first two of hand followed by `drawn`, discard the rest. */
  function Regroup(q: RoomValue, i: nat, drawn: seq<Role>): (q': RoomValue)
    requires i < |q.players|
    ensures |q'.players| == |q.players|
  {
    var all := q.players[i].cards + drawn;
    var keep := if |all| < 2 then |all| else 2;
    var q1 := SetPlayer(q, i, q.players[i].(cards := all[..keep]));
    q1.(gameState := q1.gameState.(discardPile := q1.gameState.discardPile + all[keep..]))
  }

  /** The exchange: draw two, then regroup the hand with them. */
  function Swap(r: RoomValue, i: nat, shuffle: seq<Role> -> seq<Role>): (r': RoomValue)
    requires i < |r.players|
    ensures |r'.players| == |r.players|
    ensures r'.lock == r.lock && r'.gameState.phase == r.gameState.phase
  {
    var d1 := DrawCard(r, shuffle);
    var d2 := DrawCard(d1.room, shuffle);
    Regroup(d2.room, i, Flatten(d1.value) + Flatten(d2.value))
  }

  // ----- the seven actions, for the actor at seat `i` -----

  /** The record names the actor, the action and the target it was given. */
  predicate Records(d: Declared, p: Player, kind: ActionKind, target: Option<PlayerId>)
  {
    d.record.playerId == p.id && d.record.playerName == p.name && d.record.kind == kind && d.record.targetPlayerId == target
  }

  function DeclareIncome(r: RoomValue, i: nat, target: Option<PlayerId>): (d: Declared)
    requires i < |r.players|
    ensures Records(d, r.players[i], Income, target)
    ensures d.room.lock == r.lock && (r.lock ==> d.room.gameState.phase == r.gameState.phase && d.effects == [])
  {
    var p := r.players[i];
    Declared(AddCoins(r, i, 1), [], Claim(p, Income, target, true, [IncomeTaken(p.name)]), true)
  }

  function DeclareForeignAid(r: RoomValue, i: nat, target: Option<PlayerId>, now: int): (d: Declared)
    requires i < |r.players|
    ensures Records(d, r.players[i], ForeignAid, target)
    ensures d.room.lock == r.lock && (r.lock ==> d.room.gameState.phase == r.gameState.phase && d.effects == [])
  {
    var p := r.players[i];
    var asked := Claim(p, ForeignAid, target, true, [ForeignAidSought(p.name)]);
    var dukes := Blockers(r.players, Duke, p.id, false);
    if dukes != [] then OpenCounter(r, asked, Duke, dukes, now)
    else Declared(AddCoins(r, i, 2), [], asked.(log := asked.log + [ForeignAidReceived(p.name)]), true)
  }

  function DeclareCoup(r: RoomValue, i: nat, target: Option<PlayerId>, env: Env): (d: Declared)
    requires i < |r.players|
    ensures Records(d, r.players[i], Coup, target)
    ensures d.room.lock == r.lock && (r.lock ==> d.room.gameState.phase == r.gameState.phase && d.effects == [])
  {
    var p := r.players[i];
    if p.coins < 7 then Declared(r, [], Claim(p, Coup, target, false, [CoupUnaffordable(p.name)]), false)
    else match FindOpt(r.players, target)
      case None => Declared(r, [], Claim(p, Coup, target, false, [TargetUnavailable(p.name)]), false)
      case Some(ti) =>
        if !r.players[ti].isAlive then Declared(r, [], Claim(p, Coup, target, false, [TargetUnavailable(p.name)]), false)
        else
          var hit := Strike(AddCoins(r, i, -7), ti, env.pick(0), CardLost(r.players[ti].name), env.shuffle);
          Declared(hit.room, [], Claim(p, Coup, target, true, [CoupLaunched(p.name), hit.value]), true)
  }

  function DeclareTax(r: RoomValue, i: nat, target: Option<PlayerId>, now: int): (d: Declared)
    requires i < |r.players|
    ensures Records(d, r.players[i], Tax, target)
    ensures d.room.lock == r.lock && (r.lock ==> d.room.gameState.phase == r.gameState.phase && d.effects == [])
  {
    var p := r.players[i];
    var claimed := Claim(p, Tax, target, true, [TaxClaimed(p.name)]);
    if Duke !in p.cards then OpenChallenge(r, claimed, now)
    else Declared(AddCoins(r, i, 3), [], claimed.(log := claimed.log + [TaxCollected(p.name)]), true)
  }

  function DeclareAssassinate(r: RoomValue, i: nat, target: Option<PlayerId>, env: Env): (d: Declared)
    requires i < |r.players|
    ensures Records(d, r.players[i], Assassinate, target)
    ensures d.room.lock == r.lock && (r.lock ==> d.room.gameState.phase == r.gameState.phase && d.effects == [])
  {
    var p := r.players[i];
    if p.coins < 3 then Declared(r, [], Claim(p, Assassinate, target, false, [AssassinationUnaffordable(p.name)]), false)
    else match FindOpt(r.players, target)
      case None => Declared(r, [], Claim(p, Assassinate, target, false, [TargetUnavailable(p.name)]), false)
      case Some(ti) =>
        if !r.players[ti].isAlive then Declared(r, [], Claim(p, Assassinate, target, false, [TargetUnavailable(p.name)]), false)
        else
          var paid := AddCoins(r, i, -3);
          var victim := r.players[ti];
          var claimed := Claim(p, Assassinate, target, true, [AssassinationClaimed(p.name, victim.name)]);
          if Blockers(paid.players, Contessa, target.value, true) != [] then
            OpenCounter(paid, claimed, Contessa, [target.value], env.now)
          else
            var hit := Strike(paid, ti, env.pick(0), Assassinated(victim.name), env.shuffle);
            Declared(hit.room, [], claimed.(log := claimed.log + [hit.value]), true)
  }

  function DeclareSteal(r: RoomValue, i: nat, target: Option<PlayerId>, now: int): (d: Declared)
    requires i < |r.players|
    ensures Records(d, r.players[i], Steal, target)
    ensures d.room.lock == r.lock && (r.lock ==> d.room.gameState.phase == r.gameState.phase && d.effects == [])
  {
    var p := r.players[i];
    var claimed := Claim(p, Steal, target, true, [StealClaimed(p.name)]);
    match FindOpt(r.players, target)
    case None => Declared(r, [], claimed.(log := claimed.log + [TargetUnavailable(p.name)]), false)
    case Some(ti) =>
      var victim := r.players[ti];
      if !victim.isAlive then Declared(r, [], claimed.(log := claimed.log + [TargetUnavailable(p.name)]), false)
      else if victim.coins == 0 then Declared(r, [], claimed.(log := claimed.log + [NothingToSteal(victim.name)]), true)
      else if Captain !in p.cards then OpenChallenge(r, claimed, now)
      else
        var moved := Transfer(r, i, ti);
        Declared(moved.room, [], claimed.(log := claimed.log + [Stole(p.name, moved.value)]), true)
  }

  function DeclareExchange(r: RoomValue, i: nat, target: Option<PlayerId>, env: Env): (d: Declared)
    requires i < |r.players|
    ensures Records(d, r.players[i], Exchange, target)
    ensures d.room.lock == r.lock && (r.lock ==> d.room.gameState.phase == r.gameState.phase && d.effects == [])
  {
    var p := r.players[i];
    var claimed := Claim(p, Exchange, target, true, [ExchangeClaimed(p.name)]);
    if Ambassador !in p.cards then OpenChallenge(r, claimed, env.now)
    else Declared(Swap(r, i, env.shuffle), [], claimed.(log := claimed.log + [ExchangeDone(p.name)]), true)
  }

  /** The `switch (actionType)`; an unrecognised name falls through with `success = false`. */
  function Declare(r: RoomValue, i: nat, kind: ActionKind, target: Option<PlayerId>, env: Env): (d: Declared)
    requires i < |r.players|
    ensures Records(d, r.players[i], kind, target)
    ensures d.room.lock == r.lock && (r.lock ==> d.room.gameState.phase == r.gameState.phase && d.effects == [])
  {
    match kind
    case Income => DeclareIncome(r, i, target)
    case ForeignAid => DeclareForeignAid(r, i, target, env.now)
    case Coup => DeclareCoup(r, i, target, env)
    case Tax => DeclareTax(r, i, target, env.now)
    case Assassinate => DeclareAssassinate(r, i, target, env)
    case Steal => DeclareSteal(r, i, target, env.now)
    case Exchange => DeclareExchange(r, i, target, env)
    case Unrecognized(_) => Declared(r, [], Claim(r.players[i], kind, target, false, []), true)
  }

  /** The check after the `switch`: settled, successful, and no window pending. */
  predicate Advances(d: Declared)
  {
    d.settled && d.record.success && d.room.gameState.challengeData.None? && d.room.gameState.counterData.None?
  }

  /** After the `switch`: `nextTurn` when the action advances, and the record is returned either way. */
  function Finish(d: Declared, now: int): (s: Step<Option<ActionRecord>>)
    ensures s.exit.Returned? ==> s.exit == Returned(Some(d.record))
    ensures !Advances(d) ==> s.room == d.room && s.exit.Returned?
    ensures s.room.lock == d.room.lock
    ensures d.room.lock ==> s.room.gameState.phase == d.room.gameState.phase && s.effects == d.effects
  {
    if Advances(d) then After(d.effects, Then(NextTurn(d.room, now), Some(d.record)))
    else Step(d.room, d.effects, Returned(Some(d.record)))
  }

  /**
   * `executeAction(room, playerId, actionType, targetPlayerId)`: `null` and
   * no change unless the gate passes; otherwise the action's record, after
   * `nextTurn` when the action settled.
   */
  function ExecuteAction(r: RoomValue, id: PlayerId, kind: ActionKind, target: Option<PlayerId>, env: Env): (s: Step<Option<ActionRecord>>)
    ensures !Accepts(r, id) ==> s == Step(r, [], Returned(None))
    ensures Accepts(r, id) ==> s.exit != Returned(None)
    ensures Accepts(r, id) && s.exit.Returned? ==>
      s.exit.value.value.playerId == id && s.exit.value.value.kind == kind && s.exit.value.value.targetPlayerId == target
    ensures s.room.lock == r.lock
    ensures r.lock ==> s.room.gameState.phase == r.gameState.phase && s.effects == []
  {
    if !Accepts(r, id) then Step(r, [], Returned(None))
    else Finish(Declare(r, Find(r.players, id).value, kind, target, env), env.now)
  }

  // ----- what executeAction promises -----

  /** The target names a seat whose player is alive. */
  predicate TargetAlive(r: RoomValue, target: Option<PlayerId>)
  {
    FindOpt(r.players, target).Some? && r.players[FindOpt(r.players, target).value].isAlive
  }

  /** Neither a challenge nor a counter is pending. */
  predicate NoWindow(r: RoomValue)
  {
    r.gameState.challengeData.None? && r.gameState.counterData.None?
  }

  /** Seat by seat the same players, and only seat `i`'s coins moved, by `delta`. */
  ghost predicate Paid(ps: seq<Player>, qs: seq<Player>, i: nat, delta: int)
  {
    |qs| == |ps| && forall j :: 0 <= j < |ps| ==> qs[j].id == ps[j].id && qs[j].coins == ps[j].coins + (if j == i then delta else 0)
  }

  /** What a coup or an assassination costs. */
  function Price(kind: ActionKind): (coins: nat)
    ensures kind == Coup ==> coins == 7
    ensures kind == Assassinate ==> coins == 3
  {
    if kind == Coup then 7 else if kind == Assassinate then 3 else 0
  }

  /**
   * A coup short of 7 coins or an assassination short of 3, or either aimed
   * at a missing or dead target: a `success = false` record with one log
   * line, the room untouched, and no turn advance.
   */
  lemma ExecuteFails(r: RoomValue, id: PlayerId, kind: ActionKind, target: Option<PlayerId>, env: Env)
    requires Accepts(r, id) && kind in {Coup, Assassinate}
    requires r.players[Find(r.players, id).value].coins < Price(kind) || !TargetAlive(r, target)
    ensures var s := ExecuteAction(r, id, kind, target, env); var p := r.players[Find(r.players, id).value];
      && s.room == r && s.effects == []
      && s.exit.Returned? && s.exit.value.Some? && !s.exit.value.value.success
      && s.exit.value.value.log == [
           if p.coins >= Price(kind) then TargetUnavailable(p.name)
           else if kind == Coup then CoupUnaffordable(p.name) else AssassinationUnaffordable(p.name)]
  {
  }

  /**
   * Income (+1), foreign aid nobody can block (+2) and tax by a Duke holder
   * (+3) pay the actor at once and nobody else, and the turn advances.
   */
  lemma ExecuteGains(r: RoomValue, id: PlayerId, kind: ActionKind, target: Option<PlayerId>, env: Env)
    requires Accepts(r, id) && NoWindow(r)
    requires var i := Find(r.players, id).value;
      || kind == Income
      || (kind == ForeignAid && Blockers(r.players, Duke, id, false) == [])
      || (kind == Tax && Duke in r.players[i].cards)
    ensures var s := ExecuteAction(r, id, kind, target, env); var i := Find(r.players, id).value;
      var gain := if kind == Income then 1 else if kind == ForeignAid then 2 else 3;
      && Paid(r.players, s.room.players, i, gain)
      && s.room == NextTurn(AddCoins(r, i, gain), env.now).room
      && (s.exit.Returned? ==> s.exit.value.Some? && s.exit.value.value.success)
  {
    var i := Find(r.players, id).value;
    var gain := if kind == Income then 1 else if kind == ForeignAid then 2 else 3;
    var d := Declare(r, i, kind, target, env);
    assert d.room == AddCoins(r, i, gain) && Advances(d);
    NextTurnKeepsCoins(d.room, env.now);
  }

  /**
   * Tax without a Duke, steal without a Captain (from a live target with
   * coins) and exchange without an Ambassador open a challenge window: the
   * returned record is parked with no challengers, no coin moves, the turn
   * stays, and the phase becomes `CHALLENGE_WINDOW` unless a held lock drops it.
   */
  lemma ExecuteOpensChallenge(r: RoomValue, id: PlayerId, kind: ActionKind, target: Option<PlayerId>, env: Env)
    requires Accepts(r, id) && kind in {Tax, Steal, Exchange}
    requires ClaimedRole(kind).value !in r.players[Find(r.players, id).value].cards
    requires kind == Steal ==> TargetAlive(r, target) && r.players[FindOpt(r.players, target).value].coins != 0
    ensures var s := ExecuteAction(r, id, kind, target, env);
      && s.exit.Returned? && s.exit.value.Some? && s.exit.value.value.success
      && s.room.gameState.challengeData == Some(ChallengeData(s.exit.value.value, []))
      && s.room.gameState.turnIndex == r.gameState.turnIndex
      && s.room.gameState.currentPlayer == r.gameState.currentPlayer
      && SameCoins(r.players, s.room.players)
      && (r.lock ==> s.room.players == r.players && s.room.gameState.phase == r.gameState.phase && s.effects == [])
      && (!r.lock ==> s.room.gameState.phase == ChallengeWindow && s.effects == [ClearTimer, ScheduleAdvance])
  {
    var i := Find(r.players, id).value;
    var d := Declare(r, i, kind, target, env);
    var parked := r.(gameState := r.gameState.(challengeData := Some(ChallengeData(d.record, []))));
    assert d == OpenChallenge(r, d.record, env.now);
    SweepFrame(SetPhaseField(parked, ChallengeWindow), env.now);
    SweepKeepsCoins(SetPhaseField(parked, ChallengeWindow), env.now);
  }

  /**
   * Foreign aid that another alive Duke holder could block opens a counter
   * window for exactly those players, none of them the actor; no coin moves.
   */
  lemma ExecuteAidBlockable(r: RoomValue, id: PlayerId, target: Option<PlayerId>, env: Env)
    requires Accepts(r, id) && Blockers(r.players, Duke, id, false) != []
    ensures var s := ExecuteAction(r, id, ForeignAid, target, env); var dukes := Blockers(r.players, Duke, id, false);
      && s.exit.Returned? && s.exit.value.Some? && s.exit.value.value.success
      && s.room.gameState.counterData == Some(CounterData(s.exit.value.value, Duke, dukes))
      && id !in dukes
      && s.room.gameState.turnIndex == r.gameState.turnIndex
      && SameCoins(r.players, s.room.players)
      && (!r.lock ==> s.room.gameState.phase == CounterWindow)
  {
    var i := Find(r.players, id).value;
    var d := Declare(r, i, ForeignAid, target, env);
    var dukes := Blockers(r.players, Duke, id, false);
    var parked := r.(gameState := r.gameState.(counterData := Some(CounterData(d.record, Duke, dukes))));
    assert d == OpenCounter(r, d.record, Duke, dukes, env.now);
    SweepFrame(SetPhaseField(parked, CounterWindow), env.now);
    SweepKeepsCoins(SetPhaseField(parked, CounterWindow), env.now);
  }

  /** An assassination a live Contessa holder can block, at the seat level. */
  lemma AssassinationParks(r: RoomValue, i: nat, ti: nat, target: Option<PlayerId>, env: Env)
    requires i < |r.players| && r.players[i].coins >= 3
    requires FindOpt(r.players, target) == Some(ti) && r.players[ti].isAlive && Contessa in r.players[ti].cards
    ensures var s := Finish(DeclareAssassinate(r, i, target, env), env.now);
      && s.exit.Returned? && s.exit.value.Some? && s.exit.value.value.success
      && s.room.gameState.counterData == Some(CounterData(s.exit.value.value, Contessa, [target.value]))
      && s.room.gameState.turnIndex == r.gameState.turnIndex
      && Paid(r.players, s.room.players, i, -3)
      && (!r.lock ==> s.room.gameState.phase == CounterWindow)
  {
    var paid := AddCoins(r, i, -3);
    assert paid.players[ti].id == target.value;
    assert Fits(paid.players[ti], Contessa, target.value, true);
    var d := DeclareAssassinate(r, i, target, env);
    var parked := paid.(gameState := paid.gameState.(counterData := Some(CounterData(d.record, Contessa, [target.value]))));
    assert d == OpenCounter(paid, d.record, Contessa, [target.value], env.now);
    SweepFrame(SetPhaseField(parked, CounterWindow), env.now);
    SweepKeepsCoins(SetPhaseField(parked, CounterWindow), env.now);
  }

  /**
   * An affordable assassination of a live Contessa holder takes the 3 coins,
   * then opens a counter window for the target alone.
   */
  lemma ExecuteAssassinationBlockable(r: RoomValue, id: PlayerId, target: Option<PlayerId>, env: Env)
    requires Accepts(r, id) && r.players[Find(r.players, id).value].coins >= 3 && TargetAlive(r, target)
    requires Contessa in r.players[FindOpt(r.players, target).value].cards
    ensures var s := ExecuteAction(r, id, Assassinate, target, env); var i := Find(r.players, id).value;
      && s.exit.Returned? && s.exit.value.Some? && s.exit.value.value.success
      && s.room.gameState.counterData == Some(CounterData(s.exit.value.value, Contessa, [target.value]))
      && s.room.gameState.turnIndex == r.gameState.turnIndex
      && Paid(r.players, s.room.players, i, -3)
      && (!r.lock ==> s.room.gameState.phase == CounterWindow)
  {
    var i := Find(r.players, id).value;
    ExecuteSteps(r, id, Assassinate, target, env);
    assert Declare(r, i, Assassinate, target, env) == DeclareAssassinate(r, i, target, env);
    AssassinationParks(r, i, FindOpt(r.players, target).value, target, env);
  }


  /** The `assassinate` case of the switch when no Contessa can block: pay, strike, and fall through. */
  lemma AssassinationDeclared(r: RoomValue, i: nat, ti: nat, target: Option<PlayerId>, env: Env)
    requires i < |r.players| && r.players[i].coins >= 3
    requires FindOpt(r.players, target) == Some(ti) && r.players[ti].isAlive
    requires Blockers(r.players, Contessa, target.value, true) == []
    ensures var p := r.players[i]; var victim := r.players[ti];
      var hit := Strike(AddCoins(r, i, -3), ti, env.pick(0), Assassinated(victim.name), env.shuffle);
      DeclareAssassinate(r, i, target, env)
        == Declared(hit.room, [], Claim(p, Assassinate, target, true, [AssassinationClaimed(p.name, victim.name), hit.value]), true)
  {
    var paid := AddCoins(r, i, -3);
    assert forall j :: 0 <= j < |r.players| ==> Fits(paid.players[j], Contessa, target.value, true) == Fits(r.players[j], Contessa, target.value, true);
  }

  /** An assassination nobody can block, at the seat level. */
  lemma AssassinationLands(r: RoomValue, i: nat, ti: nat, target: Option<PlayerId>, env: Env)
    requires i < |r.players| && NoWindow(r) && r.players[i].coins >= 3
    requires FindOpt(r.players, target) == Some(ti) && r.players[ti].isAlive
    requires Blockers(r.players, Contessa, target.value, true) == []
    ensures var victim := r.players[ti];
      StrikeLands(r, Finish(DeclareAssassinate(r, i, target, env), env.now), i, ti, 3,
                  AssassinationClaimed(r.players[i].name, victim.name), Assassinated(victim.name), env)
  {
    var p := r.players[i];
    var victim := r.players[ti];
    var hit := Strike(AddCoins(r, i, -3), ti, env.pick(0), Assassinated(victim.name), env.shuffle);
    AssassinationDeclared(r, i, ti, target, env);
    NextTurnKeepsCoins(hit.room, env.now);
    if IsShuffle(env.shuffle) {
      PaidStrike(r, i, ti, env.pick(0), Assassinated(victim.name), env.shuffle, -3);
    }
  }

  /**
   * An affordable assassination of a live player nobody can block with a
   * Contessa costs exactly 3 coins; under a true shuffle the target is
   * struck, no other seat changes and no card is lost; then the turn advances.
   */
  lemma ExecuteAssassinationStrikes(r: RoomValue, id: PlayerId, target: Option<PlayerId>, env: Env)
    requires Accepts(r, id) && NoWindow(r) && TargetAlive(r, target)
    requires r.players[Find(r.players, id).value].coins >= 3
    requires Blockers(r.players, Contessa, target.value, true) == []
    ensures var i := Find(r.players, id).value; var ti := FindOpt(r.players, target).value; var victim := r.players[ti];
      StrikeLands(r, ExecuteAction(r, id, Assassinate, target, env), i, ti, 3,
                  AssassinationClaimed(r.players[i].name, victim.name), Assassinated(victim.name), env)
  {
    var i := Find(r.players, id).value;
    ExecuteSteps(r, id, Assassinate, target, env);
    assert Declare(r, i, Assassinate, target, env) == DeclareAssassinate(r, i, target, env);
    AssassinationLands(r, i, FindOpt(r.players, target).value, target, env);
  }

  /** The steal of a Captain holder from a live player with coins, at the seat level. */
  lemma StealTransfers(r: RoomValue, i: nat, ti: nat, target: Option<PlayerId>, now: int)
    requires i < |r.players| && ti < |r.players| && i != ti && NoWindow(r)
    requires FindOpt(r.players, target) == Some(ti) && r.players[ti].isAlive && r.players[ti].coins != 0
    requires Captain in r.players[i].cards
    ensures var s := Finish(DeclareSteal(r, i, target, now), now);
      var amount := StealAmount(r.players[ti].coins); var q := s.room.players;
      && |q| == |r.players|
      && CoinTotal(q) == CoinTotal(r.players)
      && q[i].coins == r.players[i].coins + amount
      && q[ti].coins == r.players[ti].coins - amount
      && (r.players[ti].coins >= 0 ==> q[ti].coins >= 0)
      && (forall j :: 0 <= j < |q| && j != i && j != ti ==> q[j].coins == r.players[j].coins)
      && s.room == NextTurn(Transfer(r, i, ti).room, now).room
  {
    var d := DeclareSteal(r, i, target, now);
    assert d.room == Transfer(r, i, ti).room && Advances(d);
    TransferMoves(r, i, ti);
    NextTurnKeepsCoins(d.room, now);
    SameCoinsTotal(d.room.players, NextTurn(d.room, now).room.players);
  }

  /** An accepted call is its action's declaration followed by `Finish`. */
  lemma ExecuteSteps(r: RoomValue, id: PlayerId, kind: ActionKind, target: Option<PlayerId>, env: Env)
    requires Accepts(r, id)
    ensures ExecuteAction(r, id, kind, target, env) == Finish(Declare(r, Find(r.players, id).value, kind, target, env), env.now)
  {
  }

  /**
   * A Captain holder stealing from another live player with coins takes
   * `min(coins, 2)`: the pair's coins move by that amount, nobody else's
   * change, the table's total stays, and the turn advances.
   */
  lemma ExecuteSteal(r: RoomValue, id: PlayerId, target: Option<PlayerId>, env: Env)
    requires Accepts(r, id) && NoWindow(r) && TargetAlive(r, target) && target.value != id
    requires Captain in r.players[Find(r.players, id).value].cards
    requires r.players[FindOpt(r.players, target).value].coins != 0
    ensures var s := ExecuteAction(r, id, Steal, target, env);
      var i := Find(r.players, id).value; var ti := FindOpt(r.players, target).value;
      var amount := StealAmount(r.players[ti].coins); var q := s.room.players;
      && |q| == |r.players|
      && CoinTotal(q) == CoinTotal(r.players)
      && q[i].coins == r.players[i].coins + amount
      && q[ti].coins == r.players[ti].coins - amount
      && (r.players[ti].coins >= 0 ==> q[ti].coins >= 0)
      && (forall j :: 0 <= j < |q| && j != i && j != ti ==> q[j].coins == r.players[j].coins)
      && s.room == NextTurn(Transfer(r, i, ti).room, env.now).room
  {
    var i, ti := Find(r.players, id).value, FindOpt(r.players, target).value;
    ExecuteSteps(r, id, Steal, target, env);
    assert Declare(r, i, Steal, target, env) == DeclareSteal(r, i, target, env.now);
    StealTransfers(r, i, ti, target, env.now);
  }

  /** A steal from a live target without coins, at the seat level. */
  lemma StealFindsNothing(r: RoomValue, i: nat, target: Option<PlayerId>, now: int)
    requires i < |r.players| && NoWindow(r)
    requires FindOpt(r.players, target).Some? && r.players[FindOpt(r.players, target).value].isAlive
    requires r.players[FindOpt(r.players, target).value].coins == 0
    ensures var s := Finish(DeclareSteal(r, i, target, now), now);
      && SameCoins(r.players, s.room.players)
      && s.room == NextTurn(r, now).room
      && (s.exit.Returned? ==>
            s.exit.value.Some? && s.exit.value.value.log
              == [StealClaimed(r.players[i].name), NothingToSteal(r.players[FindOpt(r.players, target).value].name)])
  {
    var d := DeclareSteal(r, i, target, now);
    assert d.room == r && Advances(d);
    NextTurnKeepsCoins(r, now);
  }

  /** Stealing from a live target with no coins moves nothing, yet the turn advances. */
  lemma ExecuteStealNothing(r: RoomValue, id: PlayerId, target: Option<PlayerId>, env: Env)
    requires Accepts(r, id) && NoWindow(r) && TargetAlive(r, target)
    requires r.players[FindOpt(r.players, target).value].coins == 0
    ensures var s := ExecuteAction(r, id, Steal, target, env); var p := r.players[Find(r.players, id).value];
      && SameCoins(r.players, s.room.players)
      && s.room == NextTurn(r, env.now).room
      && (s.exit.Returned? ==>
            s.exit.value.Some? && s.exit.value.value.log
              == [StealClaimed(p.name), NothingToSteal(r.players[FindOpt(r.players, target).value].name)])
  {
    var i := Find(r.players, id).value;
    ExecuteSteps(r, id, Steal, target, env);
    assert Declare(r, i, Steal, target, env) == DeclareSteal(r, i, target, env.now);
    StealFindsNothing(r, i, target, env.now);
  }


  /** Stealing from a missing or dead target: a successful record, yet nothing changes and the turn stays. */
  lemma ExecuteStealNoTarget(r: RoomValue, id: PlayerId, target: Option<PlayerId>, env: Env)
    requires Accepts(r, id) && !TargetAlive(r, target)
    ensures var s := ExecuteAction(r, id, Steal, target, env); var p := r.players[Find(r.players, id).value];
      && s.room == r && s.effects == []
      && s.exit.Returned? && s.exit.value.Some? && s.exit.value.value.success
      && s.exit.value.value.log == [StealClaimed(p.name), TargetUnavailable(p.name)]
  {
  }

  /**
   * A strike after the actor at seat `i` paid `delta`: the target is struck,
   * no third seat changes, and no card is lost.
   */
  lemma PaidStrike(r: RoomValue, i: nat, ti: nat, k: nat, lost: LogEntry, shuffle: seq<Role> -> seq<Role>, delta: int)
    requires i < |r.players| && ti < |r.players| && IsShuffle(shuffle)
    requires Find(r.players, r.players[ti].id) == Some(ti) && r.players[ti].isAlive
    ensures var hit := Strike(AddCoins(r, i, delta), ti, k, lost, shuffle);
      && Struck(r.players[ti], hit.room.players[ti])
      && (forall j :: 0 <= j < |r.players| && j != i && j != ti ==> hit.room.players[j] == r.players[j])
      && AllCards(hit.room) == AllCards(r)
  {
    PaidKeeps(r, i, ti, delta);
    StrikeHits(AddCoins(r, i, delta), ti, k, lost, shuffle);
  }

  /** Paying keeps every card where it was, and every seat where its id finds it. */
  lemma PaidKeeps(r: RoomValue, i: nat, ti: nat, delta: int)
    requires i < |r.players| && ti < |r.players| && Find(r.players, r.players[ti].id) == Some(ti)
    ensures var paid := AddCoins(r, i, delta);
      && Find(paid.players, paid.players[ti].id) == Some(ti)
      && paid.players[ti].(coins := r.players[ti].coins) == r.players[ti]
      && AllCards(paid) == AllCards(r)
  {
    var paid := AddCoins(r, i, delta);
    ReplaceHand(r, i, paid.players[i]);
    MultisetCancel(AllCards(paid), AllCards(r), multiset(r.players[i].cards));
  }

  /** The `coup` case of the switch on an affordable, live target: pay, strike, and fall through to the turn check. */
  lemma CoupDeclared(r: RoomValue, i: nat, ti: nat, target: Option<PlayerId>, env: Env)
    requires i < |r.players| && r.players[i].coins >= 7
    requires FindOpt(r.players, target) == Some(ti) && r.players[ti].isAlive
    ensures var p := r.players[i];
      var hit := Strike(AddCoins(r, i, -7), ti, env.pick(0), CardLost(r.players[ti].name), env.shuffle);
      DeclareCoup(r, i, target, env) == Declared(hit.room, [], Claim(p, Coup, target, true, [CoupLaunched(p.name), hit.value]), true)
  {
  }

  /**
   * What a paid strike leaves in `s`: seat `i` paid `price` and nobody else
   * paid; the room is `nextTurn` of the struck room; under a true shuffle the
   * target at `ti` is struck, no third seat changes and no card is lost; a
   * returned record is a success logged as `claim` and then `lost`, or the
   * elimination of a target without cards.
   */
  ghost predicate StrikeLands(r: RoomValue, s: Step<Option<ActionRecord>>, i: nat, ti: nat, price: int, claim: LogEntry, lost: LogEntry, env: Env)
    requires i < |r.players| && ti < |r.players|
  {
    && Paid(r.players, s.room.players, i, -price)
    && StruckRoom(r, Strike(AddCoins(r, i, -price), ti, env.pick(0), lost, env.shuffle).room, s.room, i, ti, env)
    && (s.exit.Returned? ==>
          s.exit.value.Some? && s.exit.value.value.success
          && s.exit.value.value.log == [claim, if |r.players[ti].cards| > 0 then lost else Eliminated(r.players[ti].name)])
  }

  /**
   * `after` is `nextTurn` of the struck room `hit`; under a true shuffle the
   * target at `ti` is struck, no third seat changes and no card is lost.
   */
  ghost predicate StruckRoom(r: RoomValue, hit: RoomValue, after: RoomValue, i: nat, ti: nat, env: Env)
    requires ti < |r.players|
  {
    && after == NextTurn(hit, env.now).room
    && (IsShuffle(env.shuffle) ==>
          && |hit.players| == |r.players|
          && Struck(r.players[ti], hit.players[ti])
          && (forall j :: 0 <= j < |r.players| && j != i && j != ti ==> hit.players[j] == r.players[j])
          && AllCards(hit) == AllCards(r))
  }

  /** An affordable coup on a live target, at the seat level. */
  lemma CoupLands(r: RoomValue, i: nat, ti: nat, target: Option<PlayerId>, env: Env)
    requires i < |r.players| && NoWindow(r) && r.players[i].coins >= 7
    requires FindOpt(r.players, target) == Some(ti) && r.players[ti].isAlive
    ensures var victim := r.players[ti];
      StrikeLands(r, Finish(DeclareCoup(r, i, target, env), env.now), i, ti, 7,
                  CoupLaunched(r.players[i].name), CardLost(victim.name), env)
  {
    var p := r.players[i];
    var victim := r.players[ti];
    var hit := Strike(AddCoins(r, i, -7), ti, env.pick(0), CardLost(victim.name), env.shuffle);
    CoupDeclared(r, i, ti, target, env);
    NextTurnKeepsCoins(hit.room, env.now);
    if IsShuffle(env.shuffle) {
      PaidStrike(r, i, ti, env.pick(0), CardLost(victim.name), env.shuffle, -7);
    }
  }

  /**
   * An affordable coup on a live player costs exactly 7 coins and nobody
   * else pays. Under a true shuffle the target is struck (a hand of two is
   * refilled, a smaller one empties and the target dies), no other seat
   * changes and no card is lost; then the turn advances.
   */
  lemma ExecuteCoup(r: RoomValue, id: PlayerId, target: Option<PlayerId>, env: Env)
    requires Accepts(r, id) && NoWindow(r) && TargetAlive(r, target)
    requires r.players[Find(r.players, id).value].coins >= 7
    ensures var i := Find(r.players, id).value; var ti := FindOpt(r.players, target).value; var victim := r.players[ti];
      StrikeLands(r, ExecuteAction(r, id, Coup, target, env), i, ti, 7,
                  CoupLaunched(r.players[i].name), CardLost(victim.name), env)
  {
    var i := Find(r.players, id).value;
    ExecuteSteps(r, id, Coup, target, env);
    assert Declare(r, i, Coup, target, env) == DeclareCoup(r, i, target, env);
    CoupLands(r, i, FindOpt(r.players, target).value, target, env);
  }

  /**
   * An Ambassador holder with two cards and a deck of at least two keeps the
   * hand, and the two drawn cards go to the discard pile in drawing order.
   */
  lemma SwapKeepsHand(r: RoomValue, i: nat, shuffle: seq<Role> -> seq<Role>)
    requires i < |r.players| && |r.players[i].cards| == 2 && |r.gameState.deck| >= 2
    ensures var q := Swap(r, i, shuffle); var deck := r.gameState.deck; var L := |deck|;
      && q.players == r.players
      && q.gameState.deck == deck[..L - 2]
      && q.gameState.discardPile == r.gameState.discardPile + [deck[L - 1], deck[L - 2]]
  {
    var deck := r.gameState.deck;
    var L := |deck|;
    var d1 := DrawCard(r, shuffle);
    assert d1.value == Some(deck[L - 1]) && d1.room.gameState.deck == deck[..L - 1];
    var d2 := DrawCard(d1.room, shuffle);
    assert deck[..L - 1][..L - 2] == deck[..L - 2];
    assert d2.value == Some(deck[L - 2]) && d2.room.gameState.deck == deck[..L - 2];
    var all := r.players[i].cards + [deck[L - 1]] + [deck[L - 2]];
    assert all[..2] == r.players[i].cards && all[2..] == [deck[L - 1], deck[L - 2]];
    assert d2.room.players[i].(cards := all[..2]) == r.players[i];
    assert r.players[i := r.players[i]] == r.players;
  }

  /** Splitting a sequence keeps its elements. */
  lemma SplitKeeps<T>(all: seq<T>, k: nat)
    requires k <= |all|
    ensures multiset(all[..k]) + multiset(all[k..]) == multiset(all)
  {
    assert all == all[..k] + all[k..];
  }

  /** The bookkeeping behind `RegroupAdds`, on bare multisets. */
  lemma RegroupArith<T>(a1: multiset<T>, b: multiset<T>, a0: multiset<T>, h: multiset<T>, d: multiset<T>, p: multiset<T>,
                        hand: multiset<T>, kept: multiset<T>, rest: multiset<T>, drawn: multiset<T>)
    requires a1 == h + d + (p + rest) && b == h + d + p
    requires b + hand == a0 + kept
    requires kept + rest == hand + drawn
    ensures a1 == a0 + drawn
  {
    forall x ensures a1[x] == (a0 + drawn)[x] {
      assert (b + hand)[x] == (a0 + kept)[x];
      assert (kept + rest)[x] == (hand + drawn)[x];
    }
  }

  /** Regrouping adds exactly the drawn cards to the room: some to the hand, the rest to the pile. */
  lemma RegroupAdds(q: RoomValue, i: nat, drawn: seq<Role>)
    requires i < |q.players|
    ensures AllCards(Regroup(q, i, drawn)) == AllCards(q) + multiset(drawn)
  {
    var hand := q.players[i].cards;
    var all := hand + drawn;
    var keep := if |all| < 2 then |all| else 2;
    var kept := q.players[i].(cards := all[..keep]);
    var q1 := SetPlayer(q, i, kept);
    ReplaceHand(q, i, kept);
    SplitKeeps(all, keep);
    RegroupArith(AllCards(Regroup(q, i, drawn)), AllCards(q1), AllCards(q),
      HandCards(q1.players), multiset(q.gameState.deck), multiset(q.gameState.discardPile),
      multiset(hand), multiset(all[..keep]), multiset(all[keep..]), multiset(drawn));
  }

  /** The bookkeeping behind `TwoDrawsConserve`, on bare multisets. */
  lemma DrawsArith<T>(a2: multiset<T>, a0: multiset<T>, h: multiset<T>, d0: multiset<T>, p0: multiset<T>,
                      d1: multiset<T>, p1: multiset<T>, d2: multiset<T>, p2: multiset<T>, f1: multiset<T>, f2: multiset<T>)
    requires a2 == h + d2 + p2 && a0 == h + d0 + p0
    requires d2 + p2 + f2 == d1 + p1
    requires d1 + p1 + f1 == d0 + p0
    ensures a2 + (f1 + f2) == a0
  {
    forall x ensures (a2 + (f1 + f2))[x] == a0[x] {
      assert (d2 + p2 + f2)[x] == (d1 + p1)[x];
      assert (d1 + p1 + f1)[x] == (d0 + p0)[x];
    }
  }

  /** Two draws take out of deck and pile exactly the cards they return, and touch no hand. */
  lemma TwoDrawsConserve(r: RoomValue, shuffle: seq<Role> -> seq<Role>)
    requires IsShuffle(shuffle)
    ensures var d1 := DrawCard(r, shuffle); var d2 := DrawCard(d1.room, shuffle);
      AllCards(d2.room) + multiset(Flatten(d1.value) + Flatten(d2.value)) == AllCards(r)
  {
    var d1 := DrawCard(r, shuffle);
    var d2 := DrawCard(d1.room, shuffle);
    DrawCardConserves(r, shuffle);
    DrawCardConserves(d1.room, shuffle);
    var g, g1, g2 := r.gameState, d1.room.gameState, d2.room.gameState;
    assert HandCards(d2.room.players) == HandCards(r.players);
    DrawsArith(AllCards(d2.room), AllCards(r), HandCards(r.players),
      multiset(g.deck), multiset(g.discardPile), multiset(g1.deck), multiset(g1.discardPile),
      multiset(g2.deck), multiset(g2.discardPile), multiset(Flatten(d1.value)), multiset(Flatten(d2.value)));
  }

  /** With a true shuffle an exchange loses no card and makes none up. */
  lemma SwapConserves(r: RoomValue, i: nat, shuffle: seq<Role> -> seq<Role>)
    requires IsShuffle(shuffle) && i < |r.players|
    ensures AllCards(Swap(r, i, shuffle)) == AllCards(r)
  {
    var d1 := DrawCard(r, shuffle);
    var d2 := DrawCard(d1.room, shuffle);
    TwoDrawsConserve(r, shuffle);
    RegroupAdds(d2.room, i, Flatten(d1.value) + Flatten(d2.value));
  }

  /** The exchange of an Ambassador holder, at the seat level. */
  lemma ExchangeSwaps(r: RoomValue, i: nat, target: Option<PlayerId>, env: Env)
    requires i < |r.players| && NoWindow(r) && Ambassador in r.players[i].cards
    ensures var s := Finish(DeclareExchange(r, i, target, env), env.now);
      && SameCoins(r.players, s.room.players)
      && s.room == NextTurn(Swap(r, i, env.shuffle), env.now).room
      && (s.exit.Returned? ==>
            s.exit.value.Some? && s.exit.value.value.log == [ExchangeClaimed(r.players[i].name), ExchangeDone(r.players[i].name)])
  {
    var d := DeclareExchange(r, i, target, env);
    var q := Swap(r, i, env.shuffle);
    assert d.room == q && Advances(d);
    assert SameCoins(r.players, q.players);
    NextTurnKeepsCoins(q, env.now);
  }

  /** An exchange by an Ambassador holder is the swap, then the turn advances; no coin moves. */
  lemma ExecuteExchange(r: RoomValue, id: PlayerId, target: Option<PlayerId>, env: Env)
    requires Accepts(r, id) && NoWindow(r)
    requires Ambassador in r.players[Find(r.players, id).value].cards
    ensures var s := ExecuteAction(r, id, Exchange, target, env); var i := Find(r.players, id).value;
      && SameCoins(r.players, s.room.players)
      && s.room == NextTurn(Swap(r, i, env.shuffle), env.now).room
      && (s.exit.Returned? ==>
            s.exit.value.Some? && s.exit.value.value.log == [ExchangeClaimed(r.players[i].name), ExchangeDone(r.players[i].name)])
  {
    var i := Find(r.players, id).value;
    ExecuteSteps(r, id, Exchange, target, env);
    assert Declare(r, i, Exchange, target, env) == DeclareExchange(r, i, target, env);
    ExchangeSwaps(r, i, target, env);
  }

  // ----- solvency -----

  /** No player holds a negative number of coins. */
  ghost predicate Solvent(ps: seq<Player>)
  {
    forall j :: 0 <= j < |ps| ==> ps[j].coins >= 0
  }

  lemma SameCoinsSolvent(ps: seq<Player>, qs: seq<Player>)
    requires SameCoins(ps, qs) && Solvent(ps)
    ensures Solvent(qs)
  {
  }

  /** Parking a claim in either window moves no coin. */
  lemma WindowsKeepCoins(r: RoomValue, rec: ActionRecord, role: Role, blockers: seq<PlayerId>, now: int)
    ensures SameCoins(r.players, OpenChallenge(r, rec, now).room.players)
    ensures SameCoins(r.players, OpenCounter(r, rec, role, blockers, now).room.players)
  {
    var c := r.(gameState := r.gameState.(challengeData := Some(ChallengeData(rec, []))));
    var b := r.(gameState := r.gameState.(counterData := Some(CounterData(rec, role, blockers))));
    if !r.lock {
      SweepKeepsCoins(SetPhaseField(c, ChallengeWindow), now);
      SweepKeepsCoins(SetPhaseField(b, CounterWindow), now);
    }
  }

  /** The exchange only trades cards. */
  lemma SwapKeepsCoins(r: RoomValue, i: nat, shuffle: seq<Role> -> seq<Role>)
    requires i < |r.players|
    ensures SameCoins(r.players, Swap(r, i, shuffle).players)
  {
  }

  /** A paid action leaves its payer solvent when the price was affordable. */
  lemma PaySolvent(r: RoomValue, i: nat, delta: int)
    requires i < |r.players| && Solvent(r.players) && r.players[i].coins + delta >= 0
    ensures Solvent(AddCoins(r, i, delta).players)
  {
  }

  /** A steal takes no more than the target holds and gives it to the actor. */
  lemma TransferSolvent(r: RoomValue, i: nat, ti: nat)
    requires i < |r.players| && ti < |r.players| && Solvent(r.players)
    ensures Solvent(Transfer(r, i, ti).room.players)
  {
    TransferMoves(r, i, ti);
    TransferSeats(r, i, ti);
  }

  lemma CoupSolvent(r: RoomValue, i: nat, target: Option<PlayerId>, env: Env)
    requires i < |r.players| && Solvent(r.players)
    ensures Solvent(DeclareCoup(r, i, target, env).room.players)
  {
    if r.players[i].coins >= 7 && FindOpt(r.players, target).Some? {
      PaySolvent(r, i, -7);
    }
  }

  lemma AssassinateSolvent(r: RoomValue, i: nat, target: Option<PlayerId>, env: Env)
    requires i < |r.players| && Solvent(r.players)
    ensures Solvent(DeclareAssassinate(r, i, target, env).room.players)
  {
    if r.players[i].coins >= 3 && FindOpt(r.players, target).Some? {
      var paid := AddCoins(r, i, -3);
      PaySolvent(r, i, -3);
      var p := r.players[i];
      var claimed := Claim(p, Assassinate, target, true, [AssassinationClaimed(p.name, r.players[FindOpt(r.players, target).value].name)]);
      WindowsKeepCoins(paid, claimed, Contessa, [target.value], env.now);
    }
  }

  lemma StealSolvent(r: RoomValue, i: nat, target: Option<PlayerId>, now: int)
    requires i < |r.players| && Solvent(r.players)
    ensures Solvent(DeclareSteal(r, i, target, now).room.players)
  {
    var p := r.players[i];
    var claimed := Claim(p, Steal, target, true, [StealClaimed(p.name)]);
    WindowsKeepCoins(r, claimed, Duke, [], now);
    if FindOpt(r.players, target).Some? {
      TransferSolvent(r, i, FindOpt(r.players, target).value);
    }
  }

  /** Every branch of the `switch` keeps every player's coins non-negative. */
  lemma DeclareSolvent(r: RoomValue, i: nat, kind: ActionKind, target: Option<PlayerId>, env: Env)
    requires i < |r.players| && Solvent(r.players)
    ensures Solvent(Declare(r, i, kind, target, env).room.players)
  {
    match kind
    case Income =>
    case ForeignAid => AidSolvent(r, i, target, env.now);
    case Coup => CoupSolvent(r, i, target, env);
    case Tax => TaxSolvent(r, i, target, env.now);
    case Assassinate => AssassinateSolvent(r, i, target, env);
    case Steal => StealSolvent(r, i, target, env.now);
    case Exchange => ExchangeSolvent(r, i, target, env);
    case Unrecognized(_) =>
  }

  lemma AidSolvent(r: RoomValue, i: nat, target: Option<PlayerId>, now: int)
    requires i < |r.players| && Solvent(r.players)
    ensures Solvent(DeclareForeignAid(r, i, target, now).room.players)
  {
    var p := r.players[i];
    WindowsKeepCoins(r, Claim(p, ForeignAid, target, true, [ForeignAidSought(p.name)]), Duke, Blockers(r.players, Duke, p.id, false), now);
  }

  lemma TaxSolvent(r: RoomValue, i: nat, target: Option<PlayerId>, now: int)
    requires i < |r.players| && Solvent(r.players)
    ensures Solvent(DeclareTax(r, i, target, now).room.players)
  {
    var p := r.players[i];
    WindowsKeepCoins(r, Claim(p, Tax, target, true, [TaxClaimed(p.name)]), Duke, [], now);
  }

  lemma ExchangeSolvent(r: RoomValue, i: nat, target: Option<PlayerId>, env: Env)
    requires i < |r.players| && Solvent(r.players)
    ensures Solvent(DeclareExchange(r, i, target, env).room.players)
  {
    var p := r.players[i];
    WindowsKeepCoins(r, Claim(p, Exchange, target, true, [ExchangeClaimed(p.name)]), Duke, [], env.now);
    SwapKeepsCoins(r, i, env.shuffle);
  }

  /**
   * `executeAction` never leaves a player with negative coins: a coup or an
   * assassination is only paid for when affordable, and a steal takes at most
   * what the target holds.
   */
  lemma ExecuteSolvent(r: RoomValue, id: PlayerId, kind: ActionKind, target: Option<PlayerId>, env: Env)
    requires Solvent(r.players)
    ensures Solvent(ExecuteAction(r, id, kind, target, env).room.players)
  {
    if Accepts(r, id) {
      var d := Declare(r, Find(r.players, id).value, kind, target, env);
      DeclareSolvent(r, Find(r.players, id).value, kind, target, env);
      if Advances(d) {
        NextTurnKeepsCoins(d.room, env.now);
      }
    }
  }
}
