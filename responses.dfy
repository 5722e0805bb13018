/**
 * The answers to a parked claim: `handleChallenge`/`resolveChallenge` for a
 * challenge window, `handleCounter` for a counter window, and
 * `handleDiscard`. Each resolves the window at the first admitted call,
 * clears the pending data and advances the turn.
 */
module Responses {
  import opened Cards
  import opened State
  import opened Rules
  import opened Turns
  import opened Actions

  /** What `resolveChallenge` returns. */
  datatype ChallengeResult = ChallengeResult(action: ActionRecord, challengers: seq<PlayerId>, challengeWon: bool, log: seq<LogEntry>)

  /** What `handleCounter` returns. */
  datatype CounterResult = CounterResult(action: ActionRecord, blocker: string, blocked: bool, log: seq<LogEntry>)

  // ----- the challengers' Set -----

  /** `challengers.add(id)`: a `Set` keeps insertion order and holds each id once. */
  function AddChallenger(cs: seq<PlayerId>, id: PlayerId): (cs': seq<PlayerId>)
    ensures id in cs' && (forall c :: c in cs' <==> c in cs || c == id)
    ensures id in cs ==> cs' == cs
    ensures id !in cs ==> cs' == cs + [id]
  {
    if id in cs then cs else cs + [id]
  }

  /** No id twice. */
  predicate NoRepeats(cs: seq<PlayerId>)
  {
    forall a, b :: 0 <= a < b < |cs| ==> cs[a] != cs[b]
  }

  lemma AddChallengerKeepsSet(cs: seq<PlayerId>, id: PlayerId)
    requires NoRepeats(cs)
    ensures NoRepeats(AddChallenger(cs, id))
    ensures |AddChallenger(cs, id)| == |cs| + (if id in cs then 0 else 1)
  {
  }

  // ----- discards seen from the other seats -----

  /** A discard changes no seat but the discarder's. */
  lemma DiscardKeepsOthers(r: RoomValue, id: PlayerId, idx: int, shuffle: seq<Role> -> seq<Role>)
    ensures var q := DiscardCard(r, id, idx, shuffle).room.players;
      && |q| == |r.players|
      && (forall j :: 0 <= j < |q| && r.players[j].id != id ==> q[j] == r.players[j])
  {
  }

  // ----- resolveChallenge -----

  /**
   * The `forEach` over the challengers of a vindicated claim: each one still
   * present, alive and holding cards discards the card `pick` chooses for them
   * and is logged; the others are passed over.
   */
  function Penalize(r: RoomValue, cs: seq<PlayerId>, pick: nat -> nat, shuffle: seq<Role> -> seq<Role>): (o: Outcome<seq<LogEntry>>)
    ensures |o.value| <= |cs|
    ensures |o.room.players| == |r.players|
    decreases |cs|
  {
    if cs == [] then Outcome(r, [])
    else
      var n := |cs| - 1;
      var o := Penalize(r, cs[..n], pick, shuffle);
      match Find(o.room.players, cs[n])
      case None => o
      case Some(j) =>
        var c := o.room.players[j];
        if c.isAlive && |c.cards| > 0 then
          var hit := DiscardCard(o.room, cs[n], PickIndex(pick(n), |c.cards|), shuffle);
          Outcome(hit.room, o.value + [ChallengerPenalized(c.name)])
        else o
  }

  /** The challengers' discards move no coin, touch nothing but players, deck and pile, and leave every other seat alone. */
  lemma {:induction false} PenalizeFrame(r: RoomValue, cs: seq<PlayerId>, pick: nat -> nat, shuffle: seq<Role> -> seq<Role>)
    ensures var o := Penalize(r, cs, pick, shuffle);
      && SameCoins(r.players, o.room.players)
      && o.room == r.(players := o.room.players,
                      gameState := r.gameState.(deck := o.room.gameState.deck, discardPile := o.room.gameState.discardPile))
      && (forall j :: 0 <= j < |r.players| && r.players[j].id !in cs ==> o.room.players[j] == r.players[j])
    decreases |cs|
  {
    if cs != [] {
      var n := |cs| - 1;
      var o := Penalize(r, cs[..n], pick, shuffle);
      PenalizeFrame(r, cs[..n], pick, shuffle);
      match Find(o.room.players, cs[n])
      case None =>
      case Some(j) =>
        var c := o.room.players[j];
        if c.isAlive && |c.cards| > 0 {
          var idx := PickIndex(pick(n), |c.cards|);
          DiscardFrame(o.room, cs[n], idx, shuffle);
          DiscardKeepsOthers(o.room, cs[n], idx, shuffle);
        }
    }
  }

  /** With a true shuffle the challengers' discards lose no card. */
  lemma {:induction false} PenalizeConserves(r: RoomValue, cs: seq<PlayerId>, pick: nat -> nat, shuffle: seq<Role> -> seq<Role>)
    requires IsShuffle(shuffle)
    ensures AllCards(Penalize(r, cs, pick, shuffle).room) == AllCards(r)
    decreases |cs|
  {
    if cs != [] {
      var n := |cs| - 1;
      var o := Penalize(r, cs[..n], pick, shuffle);
      PenalizeConserves(r, cs[..n], pick, shuffle);
      match Find(o.room.players, cs[n])
      case None =>
      case Some(j) =>
        var c := o.room.players[j];
        if c.isAlive && |c.cards| > 0 {
          DiscardConservesCards(o.room, cs[n], PickIndex(pick(n), |c.cards|), shuffle);
        }
    }
  }

  /** Does the actor hold the role the claimed action needs? An action that claims none is never upheld. */
  predicate Holds(p: Player, kind: ActionKind)
  {
    ClaimedRole(kind).Some? && ClaimedRole(kind).value in p.cards
  }

  /** The upheld claim carried out: tax pays 3, a steal moves `min(coins, 2)` from a target with coins; nothing else. */
  function Carry(r: RoomValue, i: nat, a: ActionRecord): (q: RoomValue)
    requires i < |r.players|
    ensures q == r.(players := q.players) && |q.players| == |r.players|
  {
    match a.kind
    case Tax => AddCoins(r, i, 3)
    case Steal =>
      (match FindOpt(r.players, a.targetPlayerId)
       case Some(ti) => if r.players[ti].coins > 0 then Transfer(r, i, ti).room else r
       case None => r)
    case _ => r
  }

  /** Seat by seat the same hands. */
  ghost predicate SameHands(ps: seq<Player>, qs: seq<Player>)
  {
    |qs| == |ps| && forall j :: 0 <= j < |ps| ==> qs[j].cards == ps[j].cards
  }

  lemma {:induction false} SameHandsCards(ps: seq<Player>, qs: seq<Player>)
    requires SameHands(ps, qs)
    ensures HandCards(qs) == HandCards(ps)
    decreases |ps|
  {
    if ps != [] {
      var n := |ps| - 1;
      assert SameHands(ps[..n], qs[..n]);
      SameHandsCards(ps[..n], qs[..n]);
    }
  }

  /** Seats with the same ids are found at the same places. */
  lemma {:induction false} FindSameIds(ps: seq<Player>, qs: seq<Player>, id: PlayerId)
    requires SameCoins(ps, qs)
    ensures Find(qs, id) == Find(ps, id)
    decreases |ps|
  {
    if ps != [] && ps[0].id != id {
      assert SameCoins(ps[1..], qs[1..]);
      FindSameIds(ps[1..], qs[1..], id);
    }
  }

  /** Moving coins alone keeps every card where it was. */
  lemma CoinsKeepCards(r: RoomValue, q: RoomValue)
    requires q == r.(players := q.players) && SameHands(r.players, q.players)
    ensures AllCards(q) == AllCards(r)
  {
    SameHandsCards(r.players, q.players);
  }

  lemma CarryKeepsHands(r: RoomValue, i: nat, a: ActionRecord)
    requires i < |r.players|
    ensures SameHands(r.players, Carry(r, i, a).players)
  {
    if a.kind == Steal {
      match FindOpt(r.players, a.targetPlayerId)
      case Some(ti) =>
        if r.players[ti].coins > 0 { TransferSeats(r, i, ti); }
      case None =>
    }
  }

  /**
   * `resolveChallenge` up to its `nextTurn`, for the actor at seat `i`. An
   * upheld claim makes the challengers pay and then carries the action out;
   * a refuted one costs the actor a card (logged whenever the hand is not
   * empty) and refunds an assassination.
   */
  function Settle(r: RoomValue, i: nat, cd: ChallengeData, env: Env): (o: Outcome<ChallengeResult>)
    requires i < |r.players|
    ensures |o.room.players| == |r.players|
    ensures o.value.action == cd.action && o.value.challengers == cd.challengers
    ensures o.value.challengeWon <==> !Holds(r.players[i], cd.action.kind)
  {
    var actor := r.players[i];
    var a := cd.action;
    var role := ClaimedRole(a.kind);
    if Holds(actor, a.kind) then
      var pen := Penalize(r, cd.challengers, env.pick, env.shuffle);
      Outcome(Carry(pen.room, i, a), ChallengeResult(a, cd.challengers, false, [ClaimUpheld(actor.name, role)] + pen.value))
    else
      var hit := if |actor.cards| > 0
        then DiscardCard(r, a.playerId, PickIndex(env.pick(0), |actor.cards|), env.shuffle).room
        else r;
      var refunded := if a.kind == Assassinate then AddCoins(hit, i, 3) else hit;
      var log := [ClaimRefuted(actor.name, role)] + (if |actor.cards| > 0 then [ActorPenalized(actor.name)] else []);
      Outcome(refunded, ChallengeResult(a, cd.challengers, true, log))
  }

  /** `resolveChallenge(room, challengeData)`; an actor who has left makes `actor.cards` throw. */
  function ResolveChallenge(r: RoomValue, cd: ChallengeData, env: Env): (s: Step<ChallengeResult>)
    ensures Find(r.players, cd.action.playerId).None? ==> s == Step(r, [], Raised)
    ensures s.exit.Returned? ==> s.exit.value.action == cd.action && s.exit.value.challengers == cd.challengers
  {
    match Find(r.players, cd.action.playerId)
    case None => Step(r, [], Raised)
    case Some(i) =>
      var o := Settle(r, i, cd, env);
      Then(NextTurn(o.room, env.now), o.value)
  }

  /** The gate of `handleChallenge`: a challenge window with pending data, a live challenger, and an actor still present. */
  predicate ChallengeAdmits(r: RoomValue, challengerId: PlayerId)
  {
    && r.gameState.phase.ChallengeWindow?
    && r.gameState.challengeData.Some?
    && Find(r.players, challengerId).Some?
    && r.players[Find(r.players, challengerId).value].isAlive
    && Find(r.players, r.gameState.challengeData.value.action.playerId).Some?
  }

  /**
   * `handleChallenge(room, challengerId)`: add the challenger, resolve at once,
   * then clear `challengeData` (which an exception skips).
   */
  function HandleChallenge(r: RoomValue, challengerId: PlayerId, env: Env): (s: Step<Option<ChallengeResult>>)
    ensures !ChallengeAdmits(r, challengerId) ==> s == Step(r, [], Returned(None))
    ensures ChallengeAdmits(r, challengerId) ==> s.exit != Returned(None)
    ensures s.exit.Returned? && s.exit.value.Some? ==> s.room.gameState.challengeData.None?
  {
    if !ChallengeAdmits(r, challengerId) then Step(r, [], Returned(None))
    else
      var cd := r.gameState.challengeData.value;
      var joined := cd.(challengers := AddChallenger(cd.challengers, challengerId));
      var s := ResolveChallenge(r.(gameState := r.gameState.(challengeData := Some(joined))), joined, env);
      match s.exit
      case Raised => Step(s.room, s.effects, Raised)
      case Returned(v) => Step(s.room.(gameState := s.room.gameState.(challengeData := None)), s.effects, Returned(Some(v)))
  }

  // ----- handleCounter -----

  /**
   * The countered action going ahead: foreign aid pays the actor 2 (an actor
   * who has left makes `actor.coins` throw); an assassination costs a target
   * still holding cards one of them, chosen by `k`. Nothing else happens.
   */
  function Proceed(r: RoomValue, a: ActionRecord, k: nat, shuffle: seq<Role> -> seq<Role>): (s: Step<seq<LogEntry>>)
    ensures s.effects == [] && |s.room.players| == |r.players|
    ensures s.exit.Raised? <==> a.kind == ForeignAid && Find(r.players, a.playerId).None?
    ensures a.kind !in {ForeignAid, Assassinate} ==> s == Step(r, [], Returned([]))
  {
    match a.kind
    case ForeignAid =>
      (match Find(r.players, a.playerId)
       case None => Step(r, [], Raised)
       case Some(i) => Step(AddCoins(r, i, 2), [], Returned([AidGranted(r.players[i].name)])))
    case Assassinate =>
      (match FindOpt(r.players, a.targetPlayerId)
       case Some(ti) =>
         var t := r.players[ti];
         if |t.cards| > 0 then
           Step(DiscardCard(r, t.id, PickIndex(k, |t.cards|), shuffle).room, [], Returned([Assassinated(t.name)]))
         else Step(r, [], Returned([]))
       case None => Step(r, [], Returned([])))
    case _ => Step(r, [], Returned([]))
  }

  /** The gate of `handleCounter`: a counter window with pending data and a live responder. */
  predicate CounterAdmits(r: RoomValue, blockerId: PlayerId)
  {
    && r.gameState.phase.CounterWindow?
    && r.gameState.counterData.Some?
    && Find(r.players, blockerId).Some?
    && r.players[Find(r.players, blockerId).value].isAlive
  }

  /**
   * `handleCounter` up to clearing `counterData`, for the responder at seat
   * `b`. A block by a holder of the role stops the action (and refunds an
   * assassination); a block by anyone else costs them a card, then the action
   * proceeds, as it does when the responder declines.
   */
  function Respond(r: RoomValue, b: nat, cd: CounterData, block: bool, env: Env): (s: Step<CounterResult>)
    requires b < |r.players|
    ensures s.effects == [] && |s.room.players| == |r.players|
    ensures s.exit.Returned? ==> s.exit.value.action == cd.action && s.exit.value.blocker == r.players[b].name
    ensures s.exit.Returned? ==> (s.exit.value.blocked <==> block && cd.blockerRole in r.players[b].cards)
  {
    var blocker := r.players[b];
    var a := cd.action;
    if block && cd.blockerRole in blocker.cards then
      var refunded := match Find(r.players, a.playerId)
        case Some(i) => if a.kind == Assassinate then AddCoins(r, i, 3) else r
        case None => r;
      Step(refunded, [], Returned(CounterResult(a, blocker.name, true, [Blocked(blocker.name, a.playerName)])))
    else
      var paid := block && |blocker.cards| > 0;
      var r1 := if paid then DiscardCard(r, blocker.id, PickIndex(env.pick(0), |blocker.cards|), env.shuffle).room else r;
      var p := Proceed(r1, a, env.pick(if paid then 1 else 0), env.shuffle);
      var said := if block then BlockFailed(blocker.name) else BlockDeclined(blocker.name);
      match p.exit
      case Raised => Step(p.room, [], Raised)
      case Returned(log) => Step(p.room, [], Returned(CounterResult(a, blocker.name, false, [said] + log)))
  }

  /** `handleCounter(room, blockerId, block)`: respond, clear `counterData`, then `nextTurn`. */
  function HandleCounter(r: RoomValue, blockerId: PlayerId, block: bool, env: Env): (s: Step<Option<CounterResult>>)
    ensures !CounterAdmits(r, blockerId) ==> s == Step(r, [], Returned(None))
    ensures CounterAdmits(r, blockerId) ==> s.exit != Returned(None)
    ensures s.exit.Returned? && s.exit.value.Some? ==> s.room.gameState.counterData.None?
  {
    if !CounterAdmits(r, blockerId) then Step(r, [], Returned(None))
    else
      var cd := r.gameState.counterData.value;
      var p := Respond(r, Find(r.players, blockerId).value, cd, block, env);
      match p.exit
      case Raised => Step(p.room, [], Raised)
      case Returned(v) =>
        var cleared := p.room.(gameState := p.room.gameState.(counterData := None));
        NextTurnFrame(cleared, env.now);
        Then(NextTurn(cleared, env.now), Some(v))
  }

  // ----- handleDiscard -----

  /** `handleDiscard`: only in phase `DISCARD`; a successful discard advances the turn. */
  function HandleDiscard(r: RoomValue, id: PlayerId, idx: int, env: Env): (s: Step<Option<bool>>)
    ensures !r.gameState.phase.Discard? ==> s == Step(r, [], Returned(None))
    ensures r.gameState.phase.Discard? && !DiscardCard(r, id, idx, env.shuffle).value ==> s == Step(r, [], Returned(Some(false)))
  {
    if !r.gameState.phase.Discard? then Step(r, [], Returned(None))
    else
      var o := DiscardCard(r, id, idx, env.shuffle);
      if o.value then Then(NextTurn(o.room, env.now), Some(true))
      else Step(o.room, [], Returned(Some(false)))
  }

  // ----- facts: challenges -----

  /** Once a challenge is resolved the window's data is gone: any further challenge is `null` and changes nothing. */
  lemma ChallengeResolvesOnce(r: RoomValue, c: PlayerId, env: Env, c2: PlayerId, env2: Env)
    requires HandleChallenge(r, c, env).exit.Returned? && HandleChallenge(r, c, env).exit.value.Some?
    ensures var q := HandleChallenge(r, c, env).room;
      HandleChallenge(q, c2, env2) == Step(q, [], Returned(None))
  {
  }

  /**
   * An upheld claim: the challenge is lost, and the actor keeps the very hand
   * it showed (no replacement card) unless it challenged itself. Tax pays the
   * actor 3 and nobody else; a claim other than tax or steal moves no coin.
   */
  lemma ChallengeUpheld(r: RoomValue, i: nat, cd: ChallengeData, env: Env)
    requires i < |r.players| && Holds(r.players[i], cd.action.kind)
    ensures var o := Settle(r, i, cd, env); var q := o.room.players;
      && !o.value.challengeWon
      && (r.players[i].id !in cd.challengers ==> q[i].cards == r.players[i].cards && q[i].isAlive == r.players[i].isAlive)
      && (cd.action.kind == Tax ==> Paid(r.players, q, i, 3))
      && (cd.action.kind != Tax && cd.action.kind != Steal ==> SameCoins(r.players, q))
  {
    var pen := Penalize(r, cd.challengers, env.pick, env.shuffle);
    PenalizeFrame(r, cd.challengers, env.pick, env.shuffle);
    if cd.action.kind == Steal {
      match FindOpt(pen.room.players, cd.action.targetPlayerId)
      case Some(ti) =>
        if pen.room.players[ti].coins > 0 { TransferSeats(pen.room, i, ti); }
      case None =>
    }
  }

  /** An upheld steal moves `min(coins, 2)` from a target with coins to the actor, keeping the table's total; no seat's coins go below zero that were not already. */
  lemma ChallengeUpheldSteal(r: RoomValue, i: nat, cd: ChallengeData, env: Env)
    requires i < |r.players| && cd.action.kind == Steal && Holds(r.players[i], Steal)
    requires FindOpt(r.players, cd.action.targetPlayerId).Some?
    requires FindOpt(r.players, cd.action.targetPlayerId).value != i
    requires r.players[FindOpt(r.players, cd.action.targetPlayerId).value].coins > 0
    ensures var q := Settle(r, i, cd, env).room.players; var ti := FindOpt(r.players, cd.action.targetPlayerId).value;
      var amount := StealAmount(r.players[ti].coins);
      && CoinTotal(q) == CoinTotal(r.players)
      && q[i].coins == r.players[i].coins + amount
      && q[ti].coins == r.players[ti].coins - amount >= 0
  {
    var pen := Penalize(r, cd.challengers, env.pick, env.shuffle);
    PenalizeFrame(r, cd.challengers, env.pick, env.shuffle);
    var ti := FindOpt(r.players, cd.action.targetPlayerId).value;
    FindSameIds(r.players, pen.room.players, cd.action.targetPlayerId.value);
    assert Settle(r, i, cd, env).room == Transfer(pen.room, i, ti).room;
    TransferMoves(pen.room, i, ti);
    SameCoinsTotal(r.players, pen.room.players);
  }

  /** A lone challenger of an upheld claim, alive and holding cards, makes one successful discard and is logged. */
  lemma ChallengerPays(r: RoomValue, i: nat, a: ActionRecord, c: PlayerId, env: Env)
    requires i < |r.players| && Holds(r.players[i], a.kind)
    requires Find(r.players, c).Some? && r.players[Find(r.players, c).value].isAlive
    requires |r.players[Find(r.players, c).value].cards| > 0
    ensures var cp := r.players[Find(r.players, c).value]; var k := PickIndex(env.pick(0), |cp.cards|);
      var o := Settle(r, i, ChallengeData(a, [c]), env);
      && DiscardCard(r, c, k, env.shuffle).value
      && o.room == Carry(DiscardCard(r, c, k, env.shuffle).room, i, a)
      && o.value.log == [ClaimUpheld(r.players[i].name, ClaimedRole(a.kind)), ChallengerPenalized(cp.name)]
  {
    var cp := r.players[Find(r.players, c).value];
    var k := PickIndex(env.pick(0), |cp.cards|);
    assert [c][..0] == [] && [c][0] == c;
    assert Penalize(r, [c][..0], env.pick, env.shuffle) == Outcome(r, []);
    assert [] + [ChallengerPenalized(cp.name)] == [ChallengerPenalized(cp.name)];
    var pen := Penalize(r, [c], env.pick, env.shuffle);
    assert pen == Outcome(DiscardCard(r, c, k, env.shuffle).room, [ChallengerPenalized(cp.name)]);
  }

  /**
   * A refuted claim: the challenge is won, the actor (alive and holding cards)
   * makes one successful discard, an assassination is refunded its 3 coins,
   * and no other seat changes.
   */
  lemma ChallengeRefuted(r: RoomValue, i: nat, cd: ChallengeData, env: Env)
    requires Find(r.players, cd.action.playerId) == Some(i) && !Holds(r.players[i], cd.action.kind)
    ensures var o := Settle(r, i, cd, env); var q := o.room.players; var p := r.players[i];
      && o.value.challengeWon
      && (p.isAlive && |p.cards| > 0 ==> DiscardCard(r, p.id, PickIndex(env.pick(0), |p.cards|), env.shuffle).value)
      && Paid(r.players, q, i, if cd.action.kind == Assassinate then 3 else 0)
      && (forall j :: 0 <= j < |q| && r.players[j].id != p.id ==> q[j] == r.players[j])
      && o.value.log == [ClaimRefuted(p.name, ClaimedRole(cd.action.kind))] + (if |p.cards| > 0 then [ActorPenalized(p.name)] else [])
  {
    var p := r.players[i];
    if |p.cards| > 0 {
      var idx := PickIndex(env.pick(0), |p.cards|);
      DiscardFrame(r, p.id, idx, env.shuffle);
      DiscardKeepsOthers(r, p.id, idx, env.shuffle);
    }
  }

  /** With a true shuffle resolving a challenge loses no card and makes none up. */
  lemma SettleConserves(r: RoomValue, i: nat, cd: ChallengeData, env: Env)
    requires i < |r.players| && IsShuffle(env.shuffle)
    ensures AllCards(Settle(r, i, cd, env).room) == AllCards(r)
  {
    var p := r.players[i];
    var a := cd.action;
    if Holds(p, a.kind) {
      var pen := Penalize(r, cd.challengers, env.pick, env.shuffle);
      PenalizeConserves(r, cd.challengers, env.pick, env.shuffle);
      CarryKeepsHands(pen.room, i, a);
      CoinsKeepCards(pen.room, Carry(pen.room, i, a));
    } else {
      RefutedConserves(r, i, cd, env);
    }
  }

  /** A refuted claim costs the actor a card, which goes to the pile; a refund moves no card. */
  lemma RefutedConserves(r: RoomValue, i: nat, cd: ChallengeData, env: Env)
    requires i < |r.players| && IsShuffle(env.shuffle) && !Holds(r.players[i], cd.action.kind)
    ensures AllCards(Settle(r, i, cd, env).room) == AllCards(r)
  {
    var p := r.players[i];
    var a := cd.action;
    var hit := if |p.cards| > 0 then DiscardCard(r, a.playerId, PickIndex(env.pick(0), |p.cards|), env.shuffle).room else r;
    if |p.cards| > 0 { DiscardConservesCards(r, a.playerId, PickIndex(env.pick(0), |p.cards|), env.shuffle); }
    if a.kind == Assassinate { CoinsKeepCards(hit, AddCoins(hit, i, 3)); }
  }

  // ----- facts: counters -----

  /** Once a counter is resolved the window's data is gone: any further response is `null` and changes nothing. */
  lemma CounterResolvesOnce(r: RoomValue, b: PlayerId, block: bool, env: Env, b2: PlayerId, block2: bool, env2: Env)
    requires HandleCounter(r, b, block, env).exit.Returned? && HandleCounter(r, b, block, env).exit.value.Some?
    ensures var q := HandleCounter(r, b, block, env).room;
      HandleCounter(q, b2, block2, env2) == Step(q, [], Returned(None))
  {
  }

  /** A block by a holder of the role stops the action: only an assassination's 3 coins go back to the actor, and nothing else changes. */
  lemma BlockStands(r: RoomValue, b: nat, cd: CounterData, env: Env)
    requires b < |r.players| && cd.blockerRole in r.players[b].cards
    ensures var s := Respond(r, b, cd, true, env); var a := cd.action;
      && s.exit == Returned(CounterResult(a, r.players[b].name, true, [Blocked(r.players[b].name, a.playerName)]))
      && (a.kind == Assassinate && Find(r.players, a.playerId).Some? ==>
            s.room == AddCoins(r, Find(r.players, a.playerId).value, 3)
            && Paid(r.players, s.room.players, Find(r.players, a.playerId).value, 3))
      && (a.kind != Assassinate || Find(r.players, a.playerId).None? ==> s.room == r)
  {
  }

  /** A block by someone without the role costs them one successful discard, then the action proceeds as if unopposed. */
  lemma BlockBluffed(r: RoomValue, b: nat, cd: CounterData, env: Env)
    requires b < |r.players| && Find(r.players, r.players[b].id) == Some(b)
    requires cd.blockerRole !in r.players[b].cards && r.players[b].isAlive && |r.players[b].cards| > 0
    ensures var p := r.players[b]; var k := PickIndex(env.pick(0), |p.cards|);
      var hit := DiscardCard(r, p.id, k, env.shuffle);
      var go := Proceed(hit.room, cd.action, env.pick(1), env.shuffle);
      var s := Respond(r, b, cd, true, env);
      && hit.value
      && s.room == go.room
      && (go.exit.Returned? ==> s.exit == Returned(CounterResult(cd.action, p.name, false, [BlockFailed(p.name)] + go.exit.value)))
  {
  }

  /** A declined counter lets the action proceed on the untouched room. */
  lemma BlockWaived(r: RoomValue, b: nat, cd: CounterData, env: Env)
    requires b < |r.players|
    ensures var p := r.players[b]; var go := Proceed(r, cd.action, env.pick(0), env.shuffle);
      var s := Respond(r, b, cd, false, env);
      && s.room == go.room
      && (go.exit.Returned? ==> s.exit == Returned(CounterResult(cd.action, p.name, false, [BlockDeclined(p.name)] + go.exit.value)))
  {
  }

  /** Foreign aid going ahead pays its actor 2 and nobody else, and moves no card. */
  lemma ProceedAid(r: RoomValue, a: ActionRecord, k: nat, shuffle: seq<Role> -> seq<Role>)
    requires a.kind == ForeignAid && Find(r.players, a.playerId).Some?
    ensures var s := Proceed(r, a, k, shuffle); var i := Find(r.players, a.playerId).value;
      && s.exit == Returned([AidGranted(r.players[i].name)])
      && Paid(r.players, s.room.players, i, 2)
      && SameHands(r.players, s.room.players) && s.room == r.(players := s.room.players)
  {
  }

  /**
   * An assassination going ahead costs a target still holding cards one
   * successful discard if it is alive; no coin moves and no other seat changes.
   */
  lemma ProceedAssassination(r: RoomValue, a: ActionRecord, k: nat, shuffle: seq<Role> -> seq<Role>)
    requires a.kind == Assassinate && FindOpt(r.players, a.targetPlayerId).Some?
    requires |r.players[FindOpt(r.players, a.targetPlayerId).value].cards| > 0
    ensures var s := Proceed(r, a, k, shuffle); var t := r.players[FindOpt(r.players, a.targetPlayerId).value];
      && s.exit == Returned([Assassinated(t.name)])
      && (t.isAlive ==> DiscardCard(r, t.id, PickIndex(k, |t.cards|), shuffle).value)
      && SameCoins(r.players, s.room.players)
      && (forall j :: 0 <= j < |r.players| && r.players[j].id != t.id ==> s.room.players[j] == r.players[j])
  {
    var t := r.players[FindOpt(r.players, a.targetPlayerId).value];
    DiscardFrame(r, t.id, PickIndex(k, |t.cards|), shuffle);
    DiscardKeepsOthers(r, t.id, PickIndex(k, |t.cards|), shuffle);
  }

  /** With a true shuffle an action going ahead loses no card. */
  lemma ProceedConserves(r: RoomValue, a: ActionRecord, k: nat, shuffle: seq<Role> -> seq<Role>)
    requires IsShuffle(shuffle)
    ensures AllCards(Proceed(r, a, k, shuffle).room) == AllCards(r)
  {
    match a.kind
    case ForeignAid =>
      if Find(r.players, a.playerId).Some? {
        ProceedAid(r, a, k, shuffle);
        CoinsKeepCards(r, Proceed(r, a, k, shuffle).room);
      }
    case Assassinate =>
      match FindOpt(r.players, a.targetPlayerId) {
        case Some(ti) =>
          if |r.players[ti].cards| > 0 {
            DiscardConservesCards(r, r.players[ti].id, PickIndex(k, |r.players[ti].cards|), shuffle);
          }
        case None =>
      }
    case _ =>
  }

  /** With a true shuffle answering a counter window loses no card. */
  lemma RespondConserves(r: RoomValue, b: nat, cd: CounterData, block: bool, env: Env)
    requires b < |r.players| && IsShuffle(env.shuffle)
    ensures AllCards(Respond(r, b, cd, block, env).room) == AllCards(r)
  {
    var p := r.players[b];
    var a := cd.action;
    if block && cd.blockerRole in p.cards {
      if a.kind == Assassinate && Find(r.players, a.playerId).Some? {
        BlockStands(r, b, cd, env);
        CoinsKeepCards(r, AddCoins(r, Find(r.players, a.playerId).value, 3));
      }
    } else {
      var paid := block && |p.cards| > 0;
      var r1 := if paid then DiscardCard(r, p.id, PickIndex(env.pick(0), |p.cards|), env.shuffle).room else r;
      if paid { DiscardConservesCards(r, p.id, PickIndex(env.pick(0), |p.cards|), env.shuffle); }
      ProceedConserves(r1, a, env.pick(if paid then 1 else 0), env.shuffle);
    }
  }

  // ----- facts: solvency -----

  /** Settling a challenge takes cards only, and pays out at most a steal or a refund. */
  lemma SettleSolvent(r: RoomValue, i: nat, cd: ChallengeData, env: Env)
    requires i < |r.players| && Solvent(r.players)
    ensures Solvent(Settle(r, i, cd, env).room.players)
  {
    var actor := r.players[i];
    var a := cd.action;
    if Holds(actor, a.kind) {
      var pen := Penalize(r, cd.challengers, env.pick, env.shuffle);
      PenalizeFrame(r, cd.challengers, env.pick, env.shuffle);
      SameCoinsSolvent(r.players, pen.room.players);
      if a.kind == Steal && FindOpt(pen.room.players, a.targetPlayerId).Some? {
        TransferSolvent(pen.room, i, FindOpt(pen.room.players, a.targetPlayerId).value);
      }
    } else if |actor.cards| > 0 {
      DiscardFrame(r, a.playerId, PickIndex(env.pick(0), |actor.cards|), env.shuffle);
    }
  }

  /** `handleChallenge` never leaves a player with negative coins. */
  lemma HandleChallengeSolvent(r: RoomValue, challengerId: PlayerId, env: Env)
    requires Solvent(r.players)
    ensures Solvent(HandleChallenge(r, challengerId, env).room.players)
  {
    if ChallengeAdmits(r, challengerId) {
      var cd := r.gameState.challengeData.value;
      var joined := cd.(challengers := AddChallenger(cd.challengers, challengerId));
      var x := r.(gameState := r.gameState.(challengeData := Some(joined)));
      var i := Find(x.players, joined.action.playerId).value;
      var o := Settle(x, i, joined, env);
      SettleSolvent(x, i, joined, env);
      NextTurnKeepsCoins(o.room, env.now);
      SameCoinsSolvent(o.room.players, NextTurn(o.room, env.now).room.players);
    }
  }

  /** Answering a counter costs cards only, and pays out at most foreign aid or a refund. */
  lemma RespondSolvent(r: RoomValue, b: nat, cd: CounterData, block: bool, env: Env)
    requires b < |r.players| && Solvent(r.players)
    ensures Solvent(Respond(r, b, cd, block, env).room.players)
  {
    var blocker := r.players[b];
    var a := cd.action;
    if !(block && cd.blockerRole in blocker.cards) {
      var paid := block && |blocker.cards| > 0;
      var r1 := if paid then DiscardCard(r, blocker.id, PickIndex(env.pick(0), |blocker.cards|), env.shuffle).room else r;
      if paid {
        DiscardFrame(r, blocker.id, PickIndex(env.pick(0), |blocker.cards|), env.shuffle);
      }
      SameCoinsSolvent(r.players, r1.players);
      ProceedSolvent(r1, a, env.pick(if paid then 1 else 0), env.shuffle);
    }
  }

  /** The countered action going ahead pays out at most foreign aid. */
  lemma ProceedSolvent(r: RoomValue, a: ActionRecord, k: nat, shuffle: seq<Role> -> seq<Role>)
    requires Solvent(r.players)
    ensures Solvent(Proceed(r, a, k, shuffle).room.players)
  {
    if a.kind == Assassinate && FindOpt(r.players, a.targetPlayerId).Some? {
      var t := r.players[FindOpt(r.players, a.targetPlayerId).value];
      if |t.cards| > 0 {
        DiscardFrame(r, t.id, PickIndex(k, |t.cards|), shuffle);
      }
    }
  }

  /** `handleCounter` never leaves a player with negative coins. */
  lemma HandleCounterSolvent(r: RoomValue, blockerId: PlayerId, block: bool, env: Env)
    requires Solvent(r.players)
    ensures Solvent(HandleCounter(r, blockerId, block, env).room.players)
  {
    if CounterAdmits(r, blockerId) {
      var cd := r.gameState.counterData.value;
      var p := Respond(r, Find(r.players, blockerId).value, cd, block, env);
      RespondSolvent(r, Find(r.players, blockerId).value, cd, block, env);
      var cleared := p.room.(gameState := p.room.gameState.(counterData := None));
      NextTurnKeepsCoins(cleared, env.now);
      SameCoinsSolvent(cleared.players, NextTurn(cleared, env.now).room.players);
    }
  }

  /** `handleDiscard` moves no coin, so it keeps every player solvent. */
  lemma HandleDiscardSolvent(r: RoomValue, id: PlayerId, idx: int, env: Env)
    requires Solvent(r.players)
    ensures Solvent(HandleDiscard(r, id, idx, env).room.players)
  {
    var o := DiscardCard(r, id, idx, env.shuffle);
    DiscardFrame(r, id, idx, env.shuffle);
    SameCoinsSolvent(r.players, o.room.players);
    NextTurnKeepsCoins(o.room, env.now);
    SameCoinsSolvent(o.room.players, NextTurn(o.room, env.now).room.players);
  }
}
