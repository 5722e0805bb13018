/**
 * The GameEngine's primitives on a room value: the non-reentrant lock, the
 * phase setter with its disconnect sweep, and the deck (draw and discard).
 */
module Rules {
  import opened Cards
  import opened State

  // ----- withLock -----

  /**
   * `withLock(room, fn)`: a held lock rejects without running `fn`; otherwise
   * `fn` runs with the lock set, an exception becomes `null`, and the lock is
   * released on every way out.
   */
  function WithLock<T>(r: RoomValue, body: RoomValue -> Step<T>): (s: Step<Option<T>>)
    ensures r.lock ==> s == Step(r, [], Returned(None))
    ensures !r.lock ==> !s.room.lock && s.exit.Returned?
    ensures !r.lock ==> s.room == body(r.(lock := true)).room.(lock := false)
    ensures !r.lock ==> s.effects == body(r.(lock := true)).effects
    ensures !r.lock ==> (s.exit.value.None? <==> body(r.(lock := true)).exit.Raised?)
  {
    if r.lock then Step(r, [], Returned(None))
    else
      var inner := body(r.(lock := true));
      var value := match inner.exit
        case Returned(v) => Some(v)
        case Raised => None;
      Step(inner.room.(lock := false), inner.effects, Returned(value))
  }

  // ----- checkDisconnectedPlayers / forceEliminatePlayer -----

  /** Disconnect grace period of the sweep, in milliseconds. */
  const DisconnectGrace: int := 60000

  /**
   * `!player.connected && player.disconnectTime` and more than a minute gone;
   * a `disconnectTime` of 0 is falsy and never expires.
   */
  predicate Expired(p: Player, now: int)
  {
    !p.connected && p.disconnectTime.Some? && p.disconnectTime.value != 0
    && now - p.disconnectTime.value > DisconnectGrace
  }

  /** The player as `forceEliminatePlayer` leaves them: dead and with no hand. */
  function Knocked(p: Player): (q: Player)
    ensures q.id == p.id && q.name == p.name && !q.isAlive && q.cards == []
  {
    p.(isAlive := false, cards := [])
  }

  /** `forceEliminatePlayer`: an unknown id changes nothing; the hand is dropped, not discarded. */
  function ForceEliminate(r: RoomValue, id: PlayerId): (r': RoomValue)
    ensures Find(r.players, id).None? ==> r' == r
    ensures Find(r.players, id).Some? ==>
      var i := Find(r.players, id).value;
      r' == r.(players := r.players[i := Knocked(r.players[i])],
               gameState := r.gameState.(log := r.gameState.log + [ForcedOut(r.players[i].name)]))
  {
    match Find(r.players, id)
    case None => r
    case Some(i) =>
      var p := r.players[i];
      AppendLog(SetPlayer(r, i, Knocked(p)), [ForcedOut(p.name)])
  }

  /** The ids the sweep's first `forEach` collects, in seating order. */
  function ExpiredIds(ps: seq<Player>, now: int): (ids: seq<PlayerId>)
    ensures |ids| <= |ps|
  {
    if ps == [] then []
    else
      var last := ps[|ps| - 1];
      ExpiredIds(ps[..|ps| - 1], now) + (if Expired(last, now) then [last.id] else [])
  }

  /** The sweep's second `forEach`: eliminate each collected id in turn. */
  function EliminateAll(r: RoomValue, ids: seq<PlayerId>): (r': RoomValue)
    ensures |r'.players| == |r.players| && r'.lock == r.lock
  {
    if ids == [] then r
    else ForceEliminate(EliminateAll(r, ids[..|ids| - 1]), ids[|ids| - 1])
  }

  /** `checkDisconnectedPlayers(room)` at time `now`. */
  function Sweep(r: RoomValue, now: int): (r': RoomValue)
    ensures |r'.players| == |r.players| && r'.lock == r.lock
  {
    EliminateAll(r, ExpiredIds(r.players, now))
  }

  /** The players after a sweep of the first `m` seats: the reference the sweep is proved against. */
  function SweptPrefix(ps: seq<Player>, now: int, m: nat): (qs: seq<Player>)
    ensures |qs| == |ps|
  {
    seq(|ps|, i requires 0 <= i < |ps| => if i < m && Expired(ps[i], now) then Knocked(ps[i]) else ps[i])
  }

  /** One `ForcedOut` entry per expired player, in seating order. */
  function ForcedLog(ps: seq<Player>, now: int): (log: seq<LogEntry>)
    ensures |log| <= |ps|
  {
    if ps == [] then []
    else
      var last := ps[|ps| - 1];
      ForcedLog(ps[..|ps| - 1], now) + (if Expired(last, now) then [ForcedOut(last.name)] else [])
  }

  lemma ExpiredIdsStep(ps: seq<Player>, now: int, m: nat)
    requires 0 < m <= |ps|
    ensures ExpiredIds(ps[..m], now)
         == ExpiredIds(ps[..m - 1], now) + (if Expired(ps[m - 1], now) then [ps[m - 1].id] else [])
    ensures ForcedLog(ps[..m], now)
         == ForcedLog(ps[..m - 1], now) + (if Expired(ps[m - 1], now) then [ForcedOut(ps[m - 1].name)] else [])
  {
    assert ps[..m][..m - 1] == ps[..m - 1];
  }

  lemma EliminateAllSnoc(r: RoomValue, ids: seq<PlayerId>, x: PlayerId)
    ensures EliminateAll(r, ids + [x]) == ForceEliminate(EliminateAll(r, ids), x)
  {
    assert (ids + [x])[..|ids|] == ids;
  }

  /** A partial sweep keeps every id, so the next seat's id still finds that seat. */
  lemma SweptPrefixFinds(ps: seq<Player>, now: int, m: nat)
    requires DistinctIds(ps) && m < |ps|
    ensures Find(SweptPrefix(ps, now, m), ps[m].id) == Some(m)
    ensures SweptPrefix(ps, now, m)[m] == ps[m]
    ensures Expired(ps[m], now) ==> SweptPrefix(ps, now, m)[m := Knocked(ps[m])] == SweptPrefix(ps, now, m + 1)
    ensures !Expired(ps[m], now) ==> SweptPrefix(ps, now, m) == SweptPrefix(ps, now, m + 1)
  {
    var qs := SweptPrefix(ps, now, m);
    assert forall i :: 0 <= i < |qs| ==> qs[i].id == ps[i].id;
    assert DistinctIds(qs);
    FindInDistinct(qs, m);
  }

  lemma {:induction false} SweepPrefixIs(r: RoomValue, now: int, m: nat)
    requires DistinctIds(r.players) && m <= |r.players|
    ensures EliminateAll(r, ExpiredIds(r.players[..m], now))
         == r.(players := SweptPrefix(r.players, now, m),
               gameState := r.gameState.(log := r.gameState.log + ForcedLog(r.players[..m], now)))
  {
    var ps := r.players;
    if m == 0 {
      assert SweptPrefix(ps, now, 0) == ps;
      assert r.gameState.(log := r.gameState.log + []) == r.gameState;
    } else {
      SweepPrefixIs(r, now, m - 1);
      ExpiredIdsStep(ps, now, m);
      SweptPrefixFinds(ps, now, m - 1);
      var ids0 := ExpiredIds(ps[..m - 1], now);
      var log0 := r.gameState.log + ForcedLog(ps[..m - 1], now);
      var mid := r.(players := SweptPrefix(ps, now, m - 1), gameState := r.gameState.(log := log0));
      assert EliminateAll(r, ids0) == mid;
      if Expired(ps[m - 1], now) {
        EliminateAllSnoc(r, ids0, ps[m - 1].id);
        var last := mid.(players := SweptPrefix(ps, now, m), gameState := r.gameState.(log := log0 + [ForcedOut(ps[m - 1].name)]));
        assert ForceEliminate(mid, ps[m - 1].id) == last;
        assert log0 + [ForcedOut(ps[m - 1].name)] == r.gameState.log + ForcedLog(ps[..m], now);
      } else {
        assert ids0 + [] == ids0;
        assert ForcedLog(ps[..m - 1], now) + [] == ForcedLog(ps[..m - 1], now);
      }
    }
  }

  /**
   * The sweep eliminates exactly the expired players, each with one log
   * entry in seating order, and touches nothing else.
   */
  lemma SweepExact(r: RoomValue, now: int)
    requires DistinctIds(r.players)
    ensures var r' := Sweep(r, now);
      && |r'.players| == |r.players|
      && (forall i :: 0 <= i < |r.players| ==>
            r'.players[i] == if Expired(r.players[i], now) then Knocked(r.players[i]) else r.players[i])
      && r'.gameState == r.gameState.(log := r.gameState.log + ForcedLog(r.players, now))
      && r' == r.(players := r'.players, gameState := r'.gameState)
  {
    assert r.players[..|r.players|] == r.players;
    SweepPrefixIs(r, now, |r.players|);
  }

  /** Seat by seat, the same player with the same coins: what the sweep and turn rotation keep. */
  ghost predicate SameCoins(ps: seq<Player>, qs: seq<Player>)
  {
    |qs| == |ps| && forall i :: 0 <= i < |ps| ==> qs[i].id == ps[i].id && qs[i].name == ps[i].name && qs[i].coins == ps[i].coins
  }

  lemma {:induction false} EliminateAllKeepsCoins(r: RoomValue, ids: seq<PlayerId>)
    ensures SameCoins(r.players, EliminateAll(r, ids).players)
  {
    if ids != [] {
      EliminateAllKeepsCoins(r, ids[..|ids| - 1]);
    }
  }

  /** The sweep takes hands and lives, never coins or seats. */
  lemma SweepKeepsCoins(r: RoomValue, now: int)
    ensures SameCoins(r.players, Sweep(r, now).players)
  {
    EliminateAllKeepsCoins(r, ExpiredIds(r.players, now));
  }

  // ----- setPhase -----

  /** `setPhase(room, phase)` at time `now`: a held lock drops it; otherwise the timer is cleared, the disconnect sweep runs and `advancePhase` is scheduled. */
  function SetPhase(r: RoomValue, phase: Phase, now: int): (s: Step<()>)
    ensures s.exit.Returned? && s.room.lock == r.lock && |s.room.players| == |r.players|
    ensures r.lock ==> s.room == r && s.effects == []
    ensures !r.lock ==> s.effects == [ClearTimer, ScheduleAdvance]
  {
    if r.lock then Step(r, [], Returned(()))
    else Step(Sweep(SetPhaseField(r, phase), now), [ClearTimer, ScheduleAdvance], Returned(()))
  }

  /** `setPhase` is its body run under `withLock`: inside a held lock it does nothing at all. */
  lemma SetPhaseUnderLock(r: RoomValue, phase: Phase, now: int)
    ensures var w := WithLock(r, (x: RoomValue) =>
      Step(Sweep(SetPhaseField(x, phase), now), [ClearTimer, ScheduleAdvance], Returned(())));
      SetPhase(r, phase, now) == Step(w.room, w.effects, Returned(()))
  {
    SweepFrame(SetPhaseField(r, phase), now);
    SweepFrame(SetPhaseField(r.(lock := true), phase), now);
    if !r.lock {
      assert SetPhaseField(r.(lock := true), phase) == SetPhaseField(r, phase).(lock := true);
      SweepLockIndependent(SetPhaseField(r, phase), now);
    }
  }

  /** The sweep only touches players and the log. */
  lemma {:induction false} EliminateAllFrame(r: RoomValue, ids: seq<PlayerId>)
    ensures var r' := EliminateAll(r, ids);
      && r' == r.(players := r'.players, gameState := r.gameState.(log := r'.gameState.log))
      && |r'.players| == |r.players|
  {
    if ids != [] {
      EliminateAllFrame(r, ids[..|ids| - 1]);
    }
  }

  lemma SweepFrame(r: RoomValue, now: int)
    ensures var r' := Sweep(r, now);
      && r' == r.(players := r'.players, gameState := r.gameState.(log := r'.gameState.log))
      && |r'.players| == |r.players|
  {
    EliminateAllFrame(r, ExpiredIds(r.players, now));
  }

  lemma {:induction false} EliminateAllLockIndependent(r: RoomValue, ids: seq<PlayerId>, b: bool)
    ensures EliminateAll(r.(lock := b), ids) == EliminateAll(r, ids).(lock := b)
  {
    if ids != [] {
      EliminateAllLockIndependent(r, ids[..|ids| - 1], b);
    }
  }

  lemma SweepLockIndependent(r: RoomValue, now: int)
    ensures Sweep(r.(lock := true), now).(lock := false) == Sweep(r, now).(lock := false)
  {
    EliminateAllLockIndependent(r, ExpiredIds(r.players, now), true);
  }

  // ----- the deck -----

  /** `drawCard`: refill an empty deck from the shuffled discard pile, then pop the top. */
  function DrawCard(r: RoomValue, shuffle: seq<Role> -> seq<Role>): (o: Outcome<Option<Role>>)
    ensures o.room == r.(gameState := o.room.gameState)
    ensures o.room.gameState == r.gameState.(deck := o.room.gameState.deck, discardPile := o.room.gameState.discardPile)
    ensures r.gameState.deck != [] ==>
      (o.value == Some(r.gameState.deck[|r.gameState.deck| - 1])
       && o.room.gameState.deck == r.gameState.deck[..|r.gameState.deck| - 1]
       && o.room.gameState.discardPile == r.gameState.discardPile)
    ensures r.gameState.deck == [] ==> o.room.gameState.discardPile == []
  {
    var g := r.gameState;
    if g.deck != [] then
      Outcome(r.(gameState := g.(deck := g.deck[..|g.deck| - 1])), Some(g.deck[|g.deck| - 1]))
    else
      var refill := shuffle(g.discardPile);
      if refill == [] then
        Outcome(r.(gameState := g.(deck := refill, discardPile := [])), None)
      else
        Outcome(r.(gameState := g.(deck := refill[..|refill| - 1], discardPile := [])), Some(refill[|refill| - 1]))
  }

  /** With a true shuffle a draw loses no card, and comes up empty exactly when deck and discard pile both are. */
  lemma DrawCardConserves(r: RoomValue, shuffle: seq<Role> -> seq<Role>)
    requires IsShuffle(shuffle)
    ensures var o := DrawCard(r, shuffle);
      && multiset(o.room.gameState.deck) + multiset(o.room.gameState.discardPile) + multiset(Flatten(o.value))
         == multiset(r.gameState.deck) + multiset(r.gameState.discardPile)
      && (o.value.None? <==> r.gameState.deck == [] && r.gameState.discardPile == [])
  {
    var g := r.gameState;
    var o := DrawCard(r, shuffle);
    if g.deck != [] {
      assert g.deck == o.room.gameState.deck + Flatten(o.value);
    } else {
      var refill := shuffle(g.discardPile);
      assert multiset(refill) == multiset(g.discardPile);
      assert refill == o.room.gameState.deck + Flatten(o.value);
    }
  }

  /** The hand without card `idx`: `cards.splice(idx, 1)`. */
  function Without(cards: seq<Role>, idx: nat): (rest: seq<Role>)
    requires idx < |cards|
    ensures |rest| == |cards| - 1
    ensures multiset(rest) + multiset{cards[idx]} == multiset(cards)
  {
    assert cards == cards[..idx] + [cards[idx]] + cards[idx + 1..];
    cards[..idx] + cards[idx + 1..]
  }

  /**
   * `discardCard(room, playerId, cardIndex)`: move the card to the discard
   * pile; an emptied hand dies, a hand of one draws a replacement.
   */
  function DiscardCard(r: RoomValue, id: PlayerId, idx: int, shuffle: seq<Role> -> seq<Role>): (o: Outcome<bool>)
    ensures !o.value ==> o.room == r
    ensures o.value <==>
      Find(r.players, id).Some? && r.players[Find(r.players, id).value].isAlive
      && 0 <= idx < |r.players[Find(r.players, id).value].cards|
  {
    match Find(r.players, id)
    case None => Outcome(r, false)
    case Some(i) =>
      var p := r.players[i];
      if !p.isAlive || idx < 0 || idx >= |p.cards| then Outcome(r, false)
      else
        var rest := Without(p.cards, idx);
        var r1 := SetPlayer(r, i, p.(cards := rest));
        var r2 := r1.(gameState := r1.gameState.(discardPile := r1.gameState.discardPile + [p.cards[idx]]));
        if |rest| == 0 then
          Outcome(SetPlayer(r2, i, r2.players[i].(isAlive := false)), true)
        else if |rest| < 2 then
          var d := DrawCard(r2, shuffle);
          Outcome(SetPlayer(d.room, i, d.room.players[i].(cards := rest + Flatten(d.value))), true)
        else
          Outcome(r2, true)
  }

  // ----- discardCard facts -----

  /** A rejected discard is `false` and changes nothing; the three reasons are the only ones. */
  lemma DiscardRejects(r: RoomValue, id: PlayerId, idx: int, shuffle: seq<Role> -> seq<Role>)
    requires Find(r.players, id).None?
      || !r.players[Find(r.players, id).value].isAlive
      || idx < 0 || idx >= |r.players[Find(r.players, id).value].cards|
    ensures DiscardCard(r, id, idx, shuffle) == Outcome(r, false)
  {
  }

  lemma MultisetCancel<T>(a: multiset<T>, b: multiset<T>, c: multiset<T>)
    requires a + c == b + c
    ensures a == b
  {
    assert forall x :: a[x] == (a + c)[x] - c[x];
  }

  /** Replacing a hand changes the room's cards by exactly the two hands' difference. */
  lemma ReplaceHand(r: RoomValue, i: nat, p: Player)
    requires i < |r.players|
    ensures AllCards(SetPlayer(r, i, p)) + multiset(r.players[i].cards) == AllCards(r) + multiset(p.cards)
  {
    HandCardsUpdate(r.players, i, p);
    var h, h' := HandCards(r.players), HandCards(r.players[i := p]);
    var rest := multiset(r.gameState.deck) + multiset(r.gameState.discardPile);
    assert AllCards(SetPlayer(r, i, p)) == h' + rest;
    assert AllCards(r) == h + rest;
    var o, n := multiset(r.players[i].cards), multiset(p.cards);
    assert forall x :: (h' + rest + o)[x] == (h' + o)[x] + rest[x];
    assert forall x :: (h + rest + n)[x] == (h + n)[x] + rest[x];
  }

  /** The first half of a discard: the card leaves the hand and tops the pile. */
  lemma DiscardMoveConserves(r: RoomValue, i: nat, idx: nat)
    requires i < |r.players| && idx < |r.players[i].cards|
    ensures var p := r.players[i];
      var r1 := SetPlayer(r, i, p.(cards := Without(p.cards, idx)));
      AllCards(r1.(gameState := r1.gameState.(discardPile := r1.gameState.discardPile + [p.cards[idx]]))) == AllCards(r)
  {
    var p := r.players[i];
    var rest := Without(p.cards, idx);
    var r1 := SetPlayer(r, i, p.(cards := rest));
    ReplaceHand(r, i, p.(cards := rest));
    var g := r1.gameState;
    assert multiset(g.discardPile + [p.cards[idx]]) == multiset(g.discardPile) + multiset{p.cards[idx]};
    assert multiset(p.cards) == multiset(rest) + multiset{p.cards[idx]};
    MultisetCancel(AllCards(r1) + multiset{p.cards[idx]}, AllCards(r), multiset(rest));
  }

  /** The bookkeeping behind a refill, on bare multisets: hand `r` grows by `v`, which leaves deck and pile. */
  lemma RefillArith<T>(top: multiset<T>, r: multiset<T>, q: multiset<T>, v: multiset<T>,
                       h: multiset<T>, d: multiset<T>, p: multiset<T>, d2: multiset<T>, p2: multiset<T>)
    requires top + r == (h + d + p) + q
    requires q == r + v
    requires d + p + v == d2 + p2
    ensures top == h + d2 + p2
  {
    forall x ensures top[x] == (h + d2 + p2)[x] {
      assert (top + r)[x] == ((h + d + p) + q)[x];
      assert q[x] == r[x] + v[x];
      assert (d + p + v)[x] == (d2 + p2)[x];
    }
  }

  /** The refill half of a discard: the drawn card moves from the deck into the hand. */
  lemma RefillConserves(r2: RoomValue, i: nat, rest: seq<Role>, shuffle: seq<Role> -> seq<Role>)
    requires IsShuffle(shuffle) && i < |r2.players| && r2.players[i].cards == rest
    ensures var d := DrawCard(r2, shuffle);
      AllCards(SetPlayer(d.room, i, d.room.players[i].(cards := rest + Flatten(d.value)))) == AllCards(r2)
  {
    var d := DrawCard(r2, shuffle);
    DrawCardConserves(r2, shuffle);
    var q := d.room.players[i].(cards := rest + Flatten(d.value));
    ReplaceHand(d.room, i, q);
    var g, g2 := d.room.gameState, r2.gameState;
    var h := HandCards(r2.players);
    assert HandCards(d.room.players) == h;
    RefillArith(AllCards(SetPlayer(d.room, i, q)), multiset(rest), multiset(q.cards), multiset(Flatten(d.value)),
      h, multiset(g.deck), multiset(g.discardPile), multiset(g2.deck), multiset(g2.discardPile));
  }

  /** Hands, deck and discard pile together keep the same cards. */
  lemma DiscardConservesCards(r: RoomValue, id: PlayerId, idx: int, shuffle: seq<Role> -> seq<Role>)
    requires IsShuffle(shuffle)
    ensures AllCards(DiscardCard(r, id, idx, shuffle).room) == AllCards(r)
  {
    var o := DiscardCard(r, id, idx, shuffle);
    if o.value {
      var i := Find(r.players, id).value;
      var p := r.players[i];
      var rest := Without(p.cards, idx);
      var r1 := SetPlayer(r, i, p.(cards := rest));
      var r2 := r1.(gameState := r1.gameState.(discardPile := r1.gameState.discardPile + [p.cards[idx]]));
      DiscardMoveConserves(r, i, idx);
      if |rest| == 0 {
        var dead := r2.players[i].(isAlive := false);
        ReplaceHand(r2, i, dead);
        assert multiset(dead.cards) == multiset{};
        MultisetCancel(AllCards(SetPlayer(r2, i, dead)), AllCards(r2), multiset{});
        assert o.room == SetPlayer(r2, i, dead);
        assert AllCards(r2) == AllCards(r);
      } else if |rest| < 2 {
        RefillConserves(r2, i, rest, shuffle);
      }
    }
  }

  /**
   * An alive player discarding from a two-card hand draws a replacement, so
   * the hand stays at two cards and the player stays alive; a one-card hand
   * empties and the player dies. No other seat changes.
   */
  lemma DiscardHandSize(r: RoomValue, id: PlayerId, idx: int, shuffle: seq<Role> -> seq<Role>)
    requires IsShuffle(shuffle)
    requires Find(r.players, id).Some?
    requires DiscardCard(r, id, idx, shuffle).value
    ensures var i := Find(r.players, id).value;
      var q := DiscardCard(r, id, idx, shuffle).room.players;
      && |q| == |r.players|
      && (forall j :: 0 <= j < |q| && j != i ==> q[j] == r.players[j])
      && (|r.players[i].cards| == 2 ==> |q[i].cards| == 2 && q[i].isAlive)
      && (|r.players[i].cards| == 1 ==> q[i].cards == [] && !q[i].isAlive)
  {
  }

  /** Unless an empty deck had to be refilled, the card lands on top of the discard pile. */
  lemma DiscardOnTop(r: RoomValue, id: PlayerId, idx: int, shuffle: seq<Role> -> seq<Role>)
    requires Find(r.players, id).Some?
    requires DiscardCard(r, id, idx, shuffle).value
    requires r.gameState.deck != [] || |r.players[Find(r.players, id).value].cards| != 2
    ensures var p := r.players[Find(r.players, id).value];
      DiscardCard(r, id, idx, shuffle).room.gameState.discardPile == r.gameState.discardPile + [p.cards[idx]]
  {
  }

  /** A discard touches only the players, the deck and the discard pile, and no seat's id, name or coins. */
  lemma DiscardFrame(r: RoomValue, id: PlayerId, idx: int, shuffle: seq<Role> -> seq<Role>)
    ensures var o := DiscardCard(r, id, idx, shuffle);
      && o.room == r.(players := o.room.players,
                      gameState := r.gameState.(deck := o.room.gameState.deck, discardPile := o.room.gameState.discardPile))
      && SameCoins(r.players, o.room.players)
  {
    var o := DiscardCard(r, id, idx, shuffle);
    if o.value {
      var i := Find(r.players, id).value;
      var p := r.players[i];
      var rest := Without(p.cards, idx);
      var r1 := SetPlayer(r, i, p.(cards := rest));
      var r2 := r1.(gameState := r1.gameState.(discardPile := r1.gameState.discardPile + [p.cards[idx]]));
      assert SameCoins(r.players, r2.players);
      if 0 < |rest| < 2 {
        var d := DrawCard(r2, shuffle);
        assert d.room.players == r2.players;
      }
    }
  }
}
