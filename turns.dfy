/**
 * Turn rotation (`nextTurn`), the deferred step (`advancePhase`) and game
 * set-up (`initializeGame`) of the GameEngine, on room values.
 */
module Turns {
  import opened Cards
  import opened State
  import opened Seats
  import opened Rules

  /** `turnIndex` and `currentPlayer` moved to seat `j`. */
  function Rotated(r: RoomValue, j: nat): (r': RoomValue)
    requires j < |r.players|
    ensures r'.players == r.players && r'.gameState.turnIndex == j
    ensures r'.gameState.currentPlayer == Some(r.players[j].id)
  {
    r.(gameState := r.gameState.(turnIndex := j, currentPlayer := Some(r.players[j].id)))
  }

  /** The winner `nextTurn` records: the first alive player, or `null` when none is. */
  function Survivor(ps: seq<Player>): (w: Option<PlayerId>)
    ensures w.None? <==> forall i :: 0 <= i < |ps| ==> !ps[i].isAlive
    ensures w.Some? ==> exists i :: 0 <= i < |ps| && ps[i].isAlive && ps[i].id == w.value
  {
    var alive := Living(ps);
    if alive == [] then None
    else
      assert alive[0] in alive;
      Some(alive[0].id)
  }

  /** How far the walk from the seat after `t` is from the first alive connected seat: the recursion's measure. */
  function Distance(ps: seq<Player>, t: nat): nat
  {
    if |ps| == 0 then 0 else FirstOffset(ps, StartSeat(t, |ps|), 0, true)
  }

  /** What one round of `nextTurn` decides, from the seats and `turnIndex` alone. */
  datatype TurnPick =
    | Over(winner: Option<PlayerId>)  // at most one player alive
    | Stuck                           // alive players remain, none connected
    | Land(seat: nat)                 // the first alive seat after `turnIndex` is connected
    | Skip(seat: nat)                 // it is not: log it and go round again

  function PickSeat(ps: seq<Player>, t: nat): (p: TurnPick)
    ensures p.Over? <==> |Living(ps)| <= 1
    ensures p.Over? ==> p.winner == Survivor(ps)
    ensures (p.Land? || p.Skip?) ==> p.seat < |ps| && ps[p.seat].isAlive
    ensures p.Land? ==> ps[p.seat].connected
    ensures p.Skip? ==> !ps[p.seat].connected
    ensures (p.Land? || p.Skip?) ==>
      (|ps| > 0 && Distance(ps, t) < |ps|
       && p.seat == Walk(StartSeat(t, |ps|), FirstOffset(ps, StartSeat(t, |ps|), 0, false), |ps|))
  {
    if |Living(ps)| <= 1 then Over(Survivor(ps))
    else
      var n := |ps|;
      var s := StartSeat(t, n);
      if FirstOffset(ps, s, 0, true) == n then Stuck
      else
        var j := Walk(s, FirstOffset(ps, s, 0, false), n);
        if ps[j].connected then Land(j) else Skip(j)
  }

  /** Skipping the first alive seat, at offset `k`, leaves the walk one step nearer a connected seat. */
  lemma SkipStep(ps: seq<Player>, s: nat, k: nat)
    requires s < |ps| && k == FirstOffset(ps, s, 0, false)
    requires FirstOffset(ps, s, 0, true) < |ps| && !ps[Walk(s, k, |ps|)].connected
    ensures var n := |ps|; var d := FirstOffset(ps, s, 0, true);
      && k < d
      && StartSeat(Walk(s, k, n), n) == Walk(s, k + 1, n)
      && Distance(ps, Walk(s, k, n)) == d - k - 1
  {
    SkipShortens(ps, s, k, FirstOffset(ps, s, 0, true));
    WalkStep(s, k, |ps|);
  }

  /** A skipped seat is the first alive one; the walk resumes after it, one step nearer a connected seat. */
  lemma PickSkip(ps: seq<Player>, t: nat)
    requires PickSeat(ps, t).Skip?
    ensures var n := |ps|; var s := StartSeat(t, n); var k := FirstOffset(ps, s, 0, false);
      var j := PickSeat(ps, t).seat;
      && n > 0 && Distance(ps, t) < n && k < Distance(ps, t)
      && j == Walk(s, k, n)
      && StartSeat(j, n) == Walk(s, k + 1, n)
      && Distance(ps, j) == Distance(ps, t) - k - 1
  {
    var s := StartSeat(t, |ps|);
    SkipStep(ps, s, FirstOffset(ps, s, 0, false));
  }

  /** A landing seat is the first alive one and the first alive connected one. */
  lemma PickLand(ps: seq<Player>, t: nat)
    requires PickSeat(ps, t).Land?
    ensures var n := |ps|; var s := StartSeat(t, n);
      && n > 0 && Distance(ps, t) == FirstOffset(ps, s, 0, false)
      && PickSeat(ps, t).seat == Walk(s, Distance(ps, t), n)
  {
    var n := |ps|;
    var s := StartSeat(t, n);
    var k := FirstOffset(ps, s, 0, false);
    FirstOffsetIs(ps, s, 0, false, Distance(ps, t));
    FirstOffsetIs(ps, s, 0, true, k);
  }

  /**
   * `nextTurn(room)`. With at most one player alive the game is over. Otherwise
   * the turn walks to the first alive seat after `turnIndex`; a disconnected
   * pick is logged and the walk recurses. When no alive player is connected
   * the source recurses until the stack overflows: that is `Raised` here.
   */
  function NextTurn(r: RoomValue, now: int): (s: Step<()>)
    ensures s.room.lock == r.lock && |s.room.players| == |r.players|
    ensures r.lock ==> s.effects == [] && s.room.players == r.players
    ensures r.lock ==> s.room.gameState.phase == r.gameState.phase
    decreases Distance(r.players, r.gameState.turnIndex)
  {
    match PickSeat(r.players, r.gameState.turnIndex)
    case Over(w) => SetPhase(r.(gameState := r.gameState.(winner := w)), GameOver(w), now)
    case Stuck => Step(r, [], Raised)
    case Land(j) => SetPhase(Rotated(r, j), TurnStart(Some(r.players[j].id)), now)
    case Skip(j) =>
      PickSkip(r.players, r.gameState.turnIndex);
      NextTurn(AppendLog(Rotated(r, j), [AutoSkipped(r.players[j].name)]), now)
  }

  /** Rotating the turn moves no coins and reorders no seat. */
  lemma {:induction false} NextTurnKeepsCoins(r: RoomValue, now: int)
    ensures SameCoins(r.players, NextTurn(r, now).room.players)
    decreases Distance(r.players, r.gameState.turnIndex)
  {
    var t := r.gameState.turnIndex;
    match PickSeat(r.players, t)
    case Over(w) =>
      SweepKeepsCoins(SetPhaseField(r.(gameState := r.gameState.(winner := w)), GameOver(w)), now);
    case Stuck =>
    case Land(j) =>
      SweepKeepsCoins(SetPhaseField(Rotated(r, j), TurnStart(Some(r.players[j].id))), now);
    case Skip(j) =>
      PickSkip(r.players, t);
      var r2 := AppendLog(Rotated(r, j), [AutoSkipped(r.players[j].name)]);
      NextTurnKeepsCoins(r2, now);
      NextTurnSkipped(r, now);
  }

  /** Rotating the turn touches the seats (through the sweep), the turn fields, the phase, the log and the winner, and nothing else. */
  lemma {:induction false} NextTurnFrame(r: RoomValue, now: int)
    ensures var q := NextTurn(r, now).room;
      q == r.(players := q.players,
              gameState := r.gameState.(turnIndex := q.gameState.turnIndex, currentPlayer := q.gameState.currentPlayer,
                                        phase := q.gameState.phase, log := q.gameState.log, winner := q.gameState.winner))
    decreases Distance(r.players, r.gameState.turnIndex)
  {
    var t := r.gameState.turnIndex;
    match PickSeat(r.players, t)
    case Over(w) =>
      SweepFrame(SetPhaseField(r.(gameState := r.gameState.(winner := w)), GameOver(w)), now);
    case Stuck =>
    case Land(j) =>
      SweepFrame(SetPhaseField(Rotated(r, j), TurnStart(Some(r.players[j].id))), now);
    case Skip(j) =>
      PickSkip(r.players, t);
      var r2 := AppendLog(Rotated(r, j), [AutoSkipped(r.players[j].name)]);
      NextTurnFrame(r2, now);
      NextTurnSkipped(r, now);
  }

  /** With at most one player alive: the winner is recorded and the phase becomes `GAME_OVER` unless the lock drops it. */
  lemma NextTurnGameOver(r: RoomValue, now: int)
    requires |Living(r.players)| <= 1
    ensures var s := NextTurn(r, now); var w := Survivor(r.players);
      && s.exit.Returned?
      && s.room.gameState.winner == w
      && s.room.gameState.turnIndex == r.gameState.turnIndex
      && s.room.gameState.currentPlayer == r.gameState.currentPlayer
      && (r.lock ==> s.room == r.(gameState := r.gameState.(winner := w)) && s.effects == [])
      && (!r.lock ==> s.room.gameState.phase == GameOver(w) && s.effects == [ClearTimer, ScheduleAdvance])
  {
    var w := Survivor(r.players);
    SweepFrame(SetPhaseField(r.(gameState := r.gameState.(winner := w)), GameOver(w)), now);
  }

  lemma AppendRotated(r: RoomValue, j: nat, j': nat, e1: seq<LogEntry>, e2: seq<LogEntry>)
    requires j < |r.players| && j' < |r.players|
    ensures AppendLog(Rotated(AppendLog(Rotated(r, j), e1), j'), e2) == AppendLog(Rotated(r, j'), e1 + e2)
  {
    assert r.gameState.log + e1 + e2 == r.gameState.log + (e1 + e2);
  }

  /** The skip log from the start: the dead seats before the first pick add nothing, the pick one entry. */
  lemma SkipLogFromPick(ps: seq<Player>, s: nat, k: nat, d: nat)
    requires s < |ps| && k < d < |ps|
    requires k == FirstOffset(ps, s, 0, false)
    ensures SkipLog(ps, s, 0, d)
         == [AutoSkipped(ps[Walk(s, k, |ps|)].name)] + SkipLog(ps, Walk(s, k + 1, |ps|), 0, d - k - 1)
  {
    SkipLogOverDead(ps, s, 0, k, d);
    SkipLogShift(ps, s, k + 1, 0, d - k - 1);
  }

  /** `nextTurn`'s recursive case: a disconnected pick is logged and the walk goes on from that seat. */
  lemma NextTurnSkipped(r: RoomValue, now: int)
    requires PickSeat(r.players, r.gameState.turnIndex).Skip?
    ensures var j := PickSeat(r.players, r.gameState.turnIndex).seat;
      NextTurn(r, now) == NextTurn(AppendLog(Rotated(r, j), [AutoSkipped(r.players[j].name)]), now)
  {
  }

  /** `nextTurn`'s stopping case: a connected first pick gets the turn. */
  lemma NextTurnLanded(r: RoomValue, now: int)
    requires PickSeat(r.players, r.gameState.turnIndex).Land?
    ensures var j := PickSeat(r.players, r.gameState.turnIndex).seat;
      NextTurn(r, now) == SetPhase(Rotated(r, j), TurnStart(Some(r.players[j].id)), now)
  {
  }

  /** The seat the walk from `t` ends on: the first alive connected seat after `t`. */
  function EndSeat(ps: seq<Player>, t: nat): (j: nat)
    requires Distance(ps, t) < |ps|
    ensures j < |ps|
  {
    Walk(StartSeat(t, |ps|), Distance(ps, t), |ps|)
  }

  /** The `AutoSkipped` entries the walk from `t` writes on its way. */
  function WalkLog(ps: seq<Player>, t: nat): seq<LogEntry>
    requires Distance(ps, t) < |ps|
  {
    SkipLog(ps, StartSeat(t, |ps|), 0, Distance(ps, t))
  }

  /** Handing the turn to seat `j` after logging `log`: `setPhase(TURN_START)` for that player. */
  function LandAt(r: RoomValue, j: nat, log: seq<LogEntry>, now: int): Step<()>
    requires j < |r.players|
  {
    SetPhase(AppendLog(Rotated(r, j), log), TurnStart(Some(r.players[j].id)), now)
  }

  lemma WalkOnLand(ps: seq<Player>, t: nat)
    requires PickSeat(ps, t).Land?
    ensures Distance(ps, t) < |ps| && EndSeat(ps, t) == PickSeat(ps, t).seat && WalkLog(ps, t) == []
  {
    var s := StartSeat(t, |ps|);
    PickLand(ps, t);
    SkipLogOverDead(ps, s, 0, Distance(ps, t), Distance(ps, t));
  }

  lemma WalkAfterSkip(ps: seq<Player>, t: nat)
    requires PickSeat(ps, t).Skip?
    ensures var j := PickSeat(ps, t).seat;
      && Distance(ps, t) < |ps| && Distance(ps, j) < |ps|
      && EndSeat(ps, j) == EndSeat(ps, t)
      && WalkLog(ps, t) == [AutoSkipped(ps[j].name)] + WalkLog(ps, j)
  {
    var n := |ps|;
    var s := StartSeat(t, n);
    var d := Distance(ps, t);
    var k := FirstOffset(ps, s, 0, false);
    var j := PickSeat(ps, t).seat;
    PickSkip(ps, t);
    WalkCompose(s, k + 1, d - k - 1, n);
    SkipLogFromPick(ps, s, k, d);
  }

  /** The walk's end from `r`'s own `turnIndex`, when some alive seat is connected. */
  ghost predicate LandsFrom(r: RoomValue, now: int)
    requires Distance(r.players, r.gameState.turnIndex) < |r.players|
  {
    var ps := r.players;
    var t := r.gameState.turnIndex;
    NextTurn(r, now) == LandAt(r, EndSeat(ps, t), WalkLog(ps, t), now)
  }

  lemma LandsOnPick(r: RoomValue, now: int)
    requires PickSeat(r.players, r.gameState.turnIndex).Land?
    ensures Distance(r.players, r.gameState.turnIndex) < |r.players| && LandsFrom(r, now)
  {
    var j := PickSeat(r.players, r.gameState.turnIndex).seat;
    WalkOnLand(r.players, r.gameState.turnIndex);
    NextTurnLanded(r, now);
    assert AppendLog(Rotated(r, j), []) == Rotated(r, j);
  }

  lemma LandsAfterSkip(r: RoomValue, now: int)
    requires PickSeat(r.players, r.gameState.turnIndex).Skip?
    requires var j := PickSeat(r.players, r.gameState.turnIndex).seat;
      var r2 := AppendLog(Rotated(r, j), [AutoSkipped(r.players[j].name)]);
      && Distance(r.players, j) < |r.players|
      && NextTurn(r2, now) == LandAt(r2, EndSeat(r.players, j), WalkLog(r.players, j), now)
    ensures Distance(r.players, r.gameState.turnIndex) < |r.players| && LandsFrom(r, now)
  {
    var ps := r.players;
    var t := r.gameState.turnIndex;
    var j := PickSeat(ps, t).seat;
    var e := [AutoSkipped(ps[j].name)];
    var r2 := AppendLog(Rotated(r, j), e);
    WalkAfterSkip(ps, t);
    NextTurnSkipped(r, now);
    var jd := EndSeat(ps, t);
    assert LandAt(r2, jd, WalkLog(ps, j), now) == LandAt(r, jd, WalkLog(ps, t), now) by {
      AppendRotated(r, j, jd, e, WalkLog(ps, j));
    }
  }

  /**
   * Where the rotation lands when some alive player is connected: the first
   * alive connected seat after `turnIndex`, every alive seat skipped on the way
   * logged once in walking order, and then `setPhase(TURN_START)` for that player.
   */
  lemma {:induction false} NextTurnLands(r: RoomValue, now: int)
    requires |Living(r.players)| >= 2
    requires Distance(r.players, r.gameState.turnIndex) < |r.players|
    ensures var ps := r.players; var n := |ps|; var t := r.gameState.turnIndex;
      var s := StartSeat(t, n);
      var j := EndSeat(ps, t);
      && j == Walk(s, Distance(ps, t), n)
      && ps[j].isAlive && ps[j].connected
      && (forall e :: 0 <= e < Distance(ps, t) ==> !(ps[Walk(s, e, n)].isAlive && ps[Walk(s, e, n)].connected))
      && WalkLog(ps, t) == SkipLog(ps, s, 0, Distance(ps, t))
      && NextTurn(r, now) == LandAt(r, j, WalkLog(ps, t), now)
    decreases Distance(r.players, r.gameState.turnIndex)
  {
    var ps := r.players;
    var t := r.gameState.turnIndex;
    var n := |ps|;
    var s := StartSeat(t, n);
    var d := Distance(ps, t);
    forall e | 0 <= e < d ensures !(ps[Walk(s, e, n)].isAlive && ps[Walk(s, e, n)].connected) {
      assert !Eligible(ps[Walk(s, e, n)], true);
    }
    match PickSeat(ps, t)
    case Land(j) =>
      LandsOnPick(r, now);
    case Skip(j) =>
      PickSkip(ps, t);
      var r2 := AppendLog(Rotated(r, j), [AutoSkipped(ps[j].name)]);
      assert r2.players == ps && r2.gameState.turnIndex == j;
      NextTurnLands(r2, now);
      LandsAfterSkip(r, now);
  }

  /**
   * The first pick of the source's `while` loop: with two players alive it is
   * an alive seat other than `turnIndex`, and every seat it passes over is dead.
   * When that player is connected the turn stops there.
   */
  lemma NextTurnFirstPick(r: RoomValue, now: int)
    requires |Living(r.players)| >= 2 && r.gameState.turnIndex < |r.players|
    ensures var n := |r.players|;
      var s := StartSeat(r.gameState.turnIndex, n);
      var k := FirstOffset(r.players, s, 0, false);
      var j := Walk(s, k, n);
      && k < n - 1 && j != r.gameState.turnIndex && r.players[j].isAlive
      && (forall e :: 0 <= e < k ==> !r.players[Walk(s, e, n)].isAlive)
      && (r.players[j].connected ==> NextTurn(r, now) == SetPhase(Rotated(r, j), TurnStart(Some(r.players[j].id)), now))
  {
    var ps := r.players;
    var n := |ps|;
    var s := StartSeat(r.gameState.turnIndex, n);
    var k := FirstOffset(ps, s, 0, false);
    var j := Walk(s, k, n);
    FirstAliveBeforeWrap(ps, r.gameState.turnIndex);
    if ps[j].connected {
      FirstOffsetIs(ps, s, 0, true, k);
      assert PickSeat(ps, r.gameState.turnIndex) == Land(j);
      NextTurnLanded(r, now);
    }
  }

  /** With two alive, `nextTurn` fails exactly when no alive player is connected, and then changes nothing. */
  lemma NextTurnRaisesIff(r: RoomValue, now: int)
    requires |Living(r.players)| >= 2
    ensures NextTurn(r, now).exit.Raised? <==>
      forall i :: 0 <= i < |r.players| ==> !(r.players[i].isAlive && r.players[i].connected)
    ensures NextTurn(r, now).exit.Raised? ==> NextTurn(r, now) == Step(r, [], Raised)
  {
    var n := |r.players|;
    var s := StartSeat(r.gameState.turnIndex, n);
    if Distance(r.players, r.gameState.turnIndex) < n {
      NextTurnLands(r, now);
    } else {
      forall i | 0 <= i < n ensures !(r.players[i].isAlive && r.players[i].connected) {
        var e := OffsetOf(s, i, n);
        assert !Eligible(r.players[Walk(s, e, n)], true);
      }
    }
  }

  // ----- advancePhase -----

  /** `getCurrentPlayer`: `currentPlayer` is falsy when absent or empty. */
  function GetCurrentPlayer(r: RoomValue): (i: Option<nat>)
    ensures i.Some? ==> i.value < |r.players| && r.gameState.currentPlayer == Some(r.players[i.value].id)
    ensures r.gameState.currentPlayer.None? ==> i.None?
  {
    match r.gameState.currentPlayer
    case None => None
    case Some(id) => if id == "" then None else Find(r.players, id)
  }

  /** `advancePhase`: skip a disconnected current player; every phase case is empty. */
  function AdvancePhase(r: RoomValue, now: int): (s: Step<()>)
    ensures (GetCurrentPlayer(r).None? || r.players[GetCurrentPlayer(r).value].connected)
      ==> s == Step(r, [], Returned(()))
  {
    match GetCurrentPlayer(r)
    case None => Step(r, [], Returned(()))
    case Some(i) =>
      if r.players[i].connected then Step(r, [], Returned(()))
      else NextTurn(AppendLog(r, [AutoSkipped(r.players[i].name)]), now)
  }

  // ----- initializeGame -----

  /** One player of `initializeGame`'s `forEach`: 2 coins, two draws, alive. */
  function DealSeat(r: RoomValue, i: nat, shuffle: seq<Role> -> seq<Role>): (r': RoomValue)
    requires i < |r.players|
    ensures |r'.players| == |r.players|
  {
    var d1 := DrawCard(r, shuffle);
    var d2 := DrawCard(d1.room, shuffle);
    var p := d2.room.players[i];
    SetPlayer(d2.room, i, p.(coins := 2, cards := Flatten(d1.value) + Flatten(d2.value), isAlive := true))
  }

  /** `q` is `r` with only its players changed and the top `2 m` cards gone from the deck. */
  ghost predicate DealtFrame(r: RoomValue, q: RoomValue, m: nat)
    requires 2 * m <= |r.gameState.deck|
  {
    && q.gameState == r.gameState.(deck := r.gameState.deck[..|r.gameState.deck| - 2 * m])
    && q == r.(players := q.players, gameState := q.gameState)
  }

  /**
   * `qs` is `ps` with the first `m` seats dealt from the top of `deck`: each
   * dealt player has 2 coins, the next two cards from the top, and is alive;
   * undealt seats are untouched.
   */
  ghost predicate DealtSeats(ps: seq<Player>, qs: seq<Player>, deck: seq<Role>, m: nat)
    requires m <= |ps| == |qs| && 2 * m <= |deck|
  {
    var L := |deck|;
    && (forall i :: 0 <= i < m ==>
          qs[i] == ps[i].(coins := 2, cards := [deck[L - 1 - 2 * i], deck[L - 2 - 2 * i]], isAlive := true))
    && (forall i :: m <= i < |ps| ==> qs[i] == ps[i])
  }

  /** The first `m` seats dealt, in seating order; from a deck with `2 m` cards, each takes the next two from the top. */
  function Deal(r: RoomValue, m: nat, shuffle: seq<Role> -> seq<Role>): (r': RoomValue)
    requires m <= |r.players|
    ensures |r'.players| == |r.players|
    ensures 2 * m <= |r.gameState.deck| ==>
      DealtFrame(r, r', m) && DealtSeats(r.players, r'.players, r.gameState.deck, m)
  {
    if m == 0 then
      assert r.gameState.deck[..|r.gameState.deck|] == r.gameState.deck;
      r
    else
      var q0 := Deal(r, m - 1, shuffle);
      DealNext(r, q0, m, shuffle);
      DealSeat(q0, m - 1, shuffle)
  }

  /** The deal of `m + 1` seats is the deal of `m`, then seat `m`. */
  lemma DealStep(r: RoomValue, m: nat, shuffle: seq<Role> -> seq<Role>)
    requires m < |r.players|
    ensures Deal(r, m + 1, shuffle) == DealSeat(Deal(r, m, shuffle), m, shuffle)
  {
  }

  /** Seat `m - 1` takes the top two cards of what the first `m - 1` seats left. */
  lemma DealNext(r: RoomValue, q0: RoomValue, m: nat, shuffle: seq<Role> -> seq<Role>)
    requires 1 <= m <= |r.players| == |q0.players|
    requires 2 * m <= |r.gameState.deck| ==>
      DealtFrame(r, q0, m - 1) && DealtSeats(r.players, q0.players, r.gameState.deck, m - 1)
    ensures 2 * m <= |r.gameState.deck| ==>
      var q := DealSeat(q0, m - 1, shuffle);
      DealtFrame(r, q, m) && DealtSeats(r.players, q.players, r.gameState.deck, m)
  {
    var deck := r.gameState.deck;
    var L := |deck|;
    if 2 * m <= L {
      var top := deck[..L - 2 * (m - 1)];
      assert q0.gameState.deck == top;
      DealSeatPops(q0, m - 1, shuffle);
      assert top[..|top| - 2] == deck[..L - 2 * m];
      assert top[|top| - 1] == deck[L - 1 - 2 * (m - 1)];
      assert top[|top| - 2] == deck[L - 2 - 2 * (m - 1)];
    }
  }

  /** Dealing touches only the players, the deck and the discard pile. */
  lemma {:induction false} DealTouches(r: RoomValue, m: nat, shuffle: seq<Role> -> seq<Role>)
    requires m <= |r.players|
    ensures var q := Deal(r, m, shuffle);
      q == r.(players := q.players, gameState := r.gameState.(deck := q.gameState.deck, discardPile := q.gameState.discardPile))
    decreases m
  {
    if m > 0 {
      DealTouches(r, m - 1, shuffle);
      DealSeatTouches(Deal(r, m - 1, shuffle), m - 1, shuffle);
    }
  }

  /** Dealing one seat touches only the players, the deck and the discard pile. */
  lemma DealSeatTouches(r: RoomValue, i: nat, shuffle: seq<Role> -> seq<Role>)
    requires i < |r.players|
    ensures var q := DealSeat(r, i, shuffle);
      q == r.(players := q.players, gameState := r.gameState.(deck := q.gameState.deck, discardPile := q.gameState.discardPile))
  {
  }

  /** The resets `initializeGame` makes before dealing. */
  function Prepared(r: RoomValue, shuffle: seq<Role> -> seq<Role>): (r': RoomValue)
    ensures r'.players == r.players
  {
    r.(gameState := r.gameState.(deck := InitializeDeck(shuffle), discardPile := [], turnIndex := 0, lastAction := None))
  }

  /** `initializeGame(room)`: fresh deck, deal, then `setPhase(TURN_START)`. */
  function InitializeGame(r: RoomValue, env: Env): Step<()>
  {
    var prepared := Prepared(r, env.shuffle);
    SetPhase(Deal(prepared, |prepared.players|, env.shuffle), TurnStart(None), env.now)
  }

  /** Dealing seat `m` from a deck holding at least two cards pops its top two into that hand. */
  lemma DealSeatPops(r: RoomValue, m: nat, shuffle: seq<Role> -> seq<Role>)
    requires m < |r.players| && |r.gameState.deck| >= 2
    ensures var q := DealSeat(r, m, shuffle); var deck := r.gameState.deck; var L := |deck|;
      && q.gameState == r.gameState.(deck := deck[..L - 2])
      && q.players == r.players[m := r.players[m].(coins := 2, cards := [deck[L - 1], deck[L - 2]], isAlive := true)]
      && q == r.(players := q.players, gameState := q.gameState)
  {
    var deck := r.gameState.deck;
    var L := |deck|;
    var d1 := DrawCard(r, shuffle);
    assert d1.value == Some(deck[L - 1]) && d1.room.gameState.deck == deck[..L - 1];
    var d2 := DrawCard(d1.room, shuffle);
    assert deck[..L - 1][..L - 2] == deck[..L - 2];
    assert d2.value == Some(deck[L - 2]) && d2.room.gameState.deck == deck[..L - 2];
    assert d2.room == r.(gameState := r.gameState.(deck := deck[..L - 2]));
    assert Flatten(d1.value) + Flatten(d2.value) == [deck[L - 1], deck[L - 2]];
  }

  lemma HandCardsSnoc(qs: seq<Player>, m: nat)
    requires 1 <= m <= |qs|
    ensures HandCards(qs[..m]) == HandCards(qs[..m - 1]) + multiset(qs[m - 1].cards)
  {
    assert qs[..m][..m - 1] == qs[..m - 1];
  }

  lemma Regroup<T>(h: multiset<T>, c: multiset<T>, r: multiset<T>, t: multiset<T>, all: multiset<T>)
    requires h + t == all && t == r + c
    ensures h + c + r == all
  {
    assert forall z :: (h + c + r)[z] == (h + t)[z];
  }

  /** The top `2 m` cards are the top `2 (m - 1)` and the next two below them. */
  lemma TopTwoMore(deck: seq<Role>, m: nat)
    requires 1 <= m && 2 * m <= |deck|
    ensures var L := |deck|;
      multiset(deck[..L - 2 * (m - 1)]) == multiset(deck[..L - 2 * m]) + multiset([deck[L - 1 - 2 * (m - 1)], deck[L - 2 - 2 * (m - 1)]])
  {
    var L := |deck|;
    var top := deck[..L - 2 * (m - 1)];
    var rest := deck[..L - 2 * m];
    var x, y := deck[L - 2 * m], deck[L - 2 * m + 1];
    assert top == rest + [x, y];
    assert multiset([x, y]) == multiset([y, x]);
  }

  /** Hands holding the top `2 m` cards of `deck`, two by two from the top, plus what is left make up the deck. */
  lemma {:induction false} DealtHands(qs: seq<Player>, deck: seq<Role>, m: nat)
    requires m <= |qs| && 2 * m <= |deck|
    requires forall i :: 0 <= i < m ==> qs[i].cards == [deck[|deck| - 1 - 2 * i], deck[|deck| - 2 - 2 * i]]
    ensures HandCards(qs[..m]) + multiset(deck[..|deck| - 2 * m]) == multiset(deck)
  {
    var L := |deck|;
    if m == 0 {
      assert deck[..L] == deck;
    } else {
      DealtHands(qs, deck, m - 1);
      HandCardsSnoc(qs, m);
      TopTwoMore(deck, m);
      Regroup(HandCards(qs[..m - 1]), multiset(qs[m - 1].cards), multiset(deck[..L - 2 * m]),
              multiset(deck[..L - 2 * (m - 1)]), multiset(deck));
    }
  }

  /** Dealing every seat from a deck with enough cards and an empty discard pile loses no card. */
  lemma DealKeepsCards(r: RoomValue, shuffle: seq<Role> -> seq<Role>)
    requires 2 * |r.players| <= |r.gameState.deck| && r.gameState.discardPile == []
    ensures AllCards(Deal(r, |r.players|, shuffle)) == multiset(r.gameState.deck)
  {
    var n := |r.players|;
    var deck := r.gameState.deck;
    var q := Deal(r, n, shuffle);
    var rest := deck[..|deck| - 2 * n];
    AllSeatsDealt(r.players, q.players, deck);
    assert AllCards(q) == HandCards(q.players) + multiset(rest) + multiset([]);
  }

  /** With every seat dealt, the hands and the rest of the deck are the whole deck. */
  lemma AllSeatsDealt(ps: seq<Player>, qs: seq<Player>, deck: seq<Role>)
    requires |ps| == |qs| && 2 * |ps| <= |deck| && DealtSeats(ps, qs, deck, |ps|)
    ensures HandCards(qs) + multiset(deck[..|deck| - 2 * |ps|]) == multiset(deck)
  {
    assert qs[..|qs|] == qs;
    DealtHands(qs, deck, |qs|);
  }

  /**
   * `initializeGame` with a true shuffle and at most seven players (the room
   * caps at six): before the phase change every player has 2 coins, two cards
   * and is alive, the deck holds the other `15 - 2n` cards, the discard pile is
   * empty, and hands plus deck are exactly three of every role.
   */
  lemma InitializeGameDeals(r: RoomValue, env: Env)
    requires IsShuffle(env.shuffle) && |r.players| <= 7
    ensures var q := Deal(Prepared(r, env.shuffle), |r.players|, env.shuffle);
      && InitializeGame(r, env) == SetPhase(q, TurnStart(None), env.now)
      && |q.players| == |r.players|
      && (forall i :: 0 <= i < |r.players| ==>
            && q.players[i].coins == 2 && |q.players[i].cards| == 2 && q.players[i].isAlive
            && q.players[i].id == r.players[i].id && q.players[i].connected == r.players[i].connected)
      && |q.gameState.deck| == 15 - 2 * |r.players|
      && q.gameState.discardPile == []
      && q.gameState.turnIndex == 0 && q.gameState.lastAction.None?
      && q.gameState.currentPlayer == r.gameState.currentPlayer
      && (forall role: Role :: AllCards(q)[role] == CopiesPerRole)
  {
    var n := |r.players|;
    var p := Prepared(r, env.shuffle);
    assert |p.gameState.deck| == 15;
    DealKeepsCards(p, env.shuffle);
  }

  /**
   * The phase change that closes `initializeGame`, on a dealt room `q` whose
   * seats line up with those of `r`: only the sweep can touch a seat, and it
   * spares every connected one.
   */
  lemma DealtStarts(r: RoomValue, q: RoomValue, now: int)
    requires !q.lock && |q.players| == |r.players| && DistinctIds(r.players)
    requires forall i :: 0 <= i < |r.players| ==>
      && q.players[i].coins == 2 && |q.players[i].cards| == 2 && q.players[i].isAlive
      && q.players[i].id == r.players[i].id && q.players[i].connected == r.players[i].connected
    ensures var s := SetPhase(q, TurnStart(None), now);
      && s.exit == Returned(()) && s.effects == [ClearTimer, ScheduleAdvance]
      && s.room.gameState.status == q.gameState.status && s.room.gameState.phase == TurnStart(None)
      && s.room.gameState.deck == q.gameState.deck && s.room.gameState.discardPile == q.gameState.discardPile
      && |s.room.players| == |r.players|
      && (forall i :: 0 <= i < |r.players| && r.players[i].connected ==>
            && s.room.players[i].id == r.players[i].id
            && s.room.players[i].coins == 2 && |s.room.players[i].cards| == 2 && s.room.players[i].isAlive)
  {
    assert DistinctIds(q.players) by {
      assert forall i :: 0 <= i < |q.players| ==> q.players[i].id == r.players[i].id;
    }
    SweepExact(SetPhaseField(q, TurnStart(None)), now);
  }

  /**
   * `initializeGame` in a room without the lock: the phase becomes
   * `TURN_START` with the timer cleared and `advancePhase` scheduled, the deck
   * keeps `15 - 2n` cards, and every connected player holds 2 coins and two
   * cards and is alive (the phase change's sweep can only take those gone for
   * more than a minute).
   */
  lemma InitializeGameStarts(r: RoomValue, env: Env)
    requires IsShuffle(env.shuffle) && |r.players| <= 7 && !r.lock && DistinctIds(r.players)
    ensures var s := InitializeGame(r, env);
      && s.exit == Returned(()) && s.effects == [ClearTimer, ScheduleAdvance]
      && s.room.gameState.status == r.gameState.status && s.room.gameState.phase == TurnStart(None)
      && |s.room.gameState.deck| == 15 - 2 * |r.players| && s.room.gameState.discardPile == []
      && |s.room.players| == |r.players|
      && (forall i :: 0 <= i < |r.players| && r.players[i].connected ==>
            && s.room.players[i].id == r.players[i].id
            && s.room.players[i].coins == 2 && |s.room.players[i].cards| == 2 && s.room.players[i].isAlive)
  {
    var p := Prepared(r, env.shuffle);
    InitializeGameDeals(r, env);
    DealTouches(p, |r.players|, env.shuffle);
    var q := Deal(p, |r.players|, env.shuffle);
    assert !q.lock && q.gameState.status == r.gameState.status;
    DealtStarts(r, q, env.now);
  }
}
