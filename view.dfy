/**
 * `getFilteredGameState(room, viewerId)`: the game state a viewer is sent.
 * In `players` it hides every hand but the viewer's own behind `'hidden'`
 * placeholders of the same count. The rest of the game state is copied as it
 * is: the deck, and at game over the winner's player object, cards and all.
 */
module View {
  import opened Cards
  import opened State

  /** One card as a viewer sees it. */
  datatype CardView = Hidden | Shown(role: Role)

  /** `{ ...player, cards, cardsCount }`. */
  datatype PlayerView = PlayerView(
    id: PlayerId,
    name: string,
    coins: int,
    cards: seq<CardView>,
    cardsCount: nat,
    isAlive: bool,
    socketId: Option<string>,
    connected: bool,
    disconnectTime: Option<int>)

  /** One entry of `playersList`. */
  datatype Summary = Summary(id: PlayerId, name: string, coins: int, cardsCount: nat, isAlive: bool, connected: bool)

  /**
   * The filtered state: the game state as it is, the winner object that its
   * game-over phase carries, the players keyed by id (in seating order here),
   * and the list.
   */
  datatype Filtered = Filtered(state: GameState, winner: Option<Player>, players: seq<PlayerView>, playersList: seq<Summary>)

  /** The hand as `viewer` sees it: itself when it is the viewer's own, otherwise one placeholder per card. */
  function Mask(cards: seq<Role>, own: bool): (v: seq<CardView>)
    ensures |v| == |cards|
    ensures own ==> forall k :: 0 <= k < |v| ==> v[k] == Shown(cards[k])
    ensures !own ==> forall k :: 0 <= k < |v| ==> v[k] == Hidden
  {
    if cards == [] then [] else Mask(cards[..|cards| - 1], own) + [if own then Shown(cards[|cards| - 1]) else Hidden]
  }

  /** The cards a view shows, in order: the inverse of an unmasked hand. */
  function Revealed(v: seq<CardView>): (cards: seq<Role>)
    ensures |cards| <= |v|
  {
    if v == [] then []
    else Revealed(v[..|v| - 1]) + (match v[|v| - 1] case Shown(c) => [c] case Hidden => [])
  }

  lemma {:induction false} RevealOwn(cards: seq<Role>)
    ensures Revealed(Mask(cards, true)) == cards
    decreases |cards|
  {
    if cards != [] {
      var n := |cards| - 1;
      RevealOwn(cards[..n]);
      assert Mask(cards, true)[..n] == Mask(cards[..n], true);
      assert cards == cards[..n] + [cards[n]];
    }
  }

  lemma {:induction false} RevealOther(cards: seq<Role>)
    ensures Revealed(Mask(cards, false)) == []
    decreases |cards|
  {
    if cards != [] {
      var n := |cards| - 1;
      RevealOther(cards[..n]);
      assert Mask(cards, false)[..n] == Mask(cards[..n], false);
    }
  }

  function SeatView(p: Player, viewer: Option<PlayerId>): (v: PlayerView)
    ensures v.cardsCount == |p.cards| == |v.cards|
  {
    PlayerView(p.id, p.name, p.coins, Mask(p.cards, viewer == Some(p.id)), |p.cards|,
               p.isAlive, p.socketId, p.connected, p.disconnectTime)
  }

  function SeatSummary(p: Player): Summary
  {
    Summary(p.id, p.name, p.coins, |p.cards|, p.isAlive, p.connected)
  }

  /**
   * `phase.data.winner` at game over. The source puts the winner's player
   * object itself into the phase, and that object is the live entry of
   * `players`, so it is found there by the id the phase names.
   */
  function WinnerRecord(r: RoomValue): (w: Option<Player>)
    ensures w.Some? ==> r.gameState.phase == GameOver(Some(w.value.id)) && w.value in r.players
  {
    match r.gameState.phase
    case GameOver(Some(id)) => (match Find(r.players, id) case Some(k) => Some(r.players[k]) case None => None)
    case _ => None
  }

  /** `getFilteredGameState(room, viewerId)`; a `null` viewer sees no hand in `players`. */
  function FilteredGameState(r: RoomValue, viewer: Option<PlayerId>): (f: Filtered)
    ensures f.state == r.gameState
    ensures f.winner.Some? ==> r.gameState.phase == GameOver(Some(f.winner.value.id)) && f.winner.value in r.players
    ensures |f.players| == |f.playersList| == |r.players|
  {
    Filtered(r.gameState, WinnerRecord(r),
             seq(|r.players|, j requires 0 <= j < |r.players| => SeatView(r.players[j], viewer)),
             seq(|r.players|, j requires 0 <= j < |r.players| => SeatSummary(r.players[j])))
  }

  /**
   * In `players` the viewer sees its own hand exactly and every other hand
   * only as placeholders, as many as it has cards. The list and the map
   * agree on every seat's coins, card count and life.
   */
  lemma ViewHidesOthers(r: RoomValue, viewer: Option<PlayerId>)
    ensures var f := FilteredGameState(r, viewer);
      && (forall j :: 0 <= j < |r.players| && viewer == Some(r.players[j].id) ==> Revealed(f.players[j].cards) == r.players[j].cards)
      && (forall j :: 0 <= j < |r.players| && viewer != Some(r.players[j].id) ==> Revealed(f.players[j].cards) == [])
      && (forall j :: 0 <= j < |r.players| ==>
            f.players[j].cardsCount == f.playersList[j].cardsCount == |r.players[j].cards|
            && f.players[j].coins == f.playersList[j].coins == r.players[j].coins
            && f.players[j].isAlive == f.playersList[j].isAlive == r.players[j].isAlive)
  {
    forall j | 0 <= j < |r.players|
      ensures viewer == Some(r.players[j].id) ==> Revealed(Mask(r.players[j].cards, true)) == r.players[j].cards
      ensures viewer != Some(r.players[j].id) ==> Revealed(Mask(r.players[j].cards, false)) == []
    {
      RevealOwn(r.players[j].cards);
      RevealOther(r.players[j].cards);
    }
  }

  /**
   * At game over every viewer, whoever it is, is sent the winner's hand
   * unmasked, together with the deck as it lies.
   */
  lemma ViewShowsWinner(r: RoomValue, viewer: Option<PlayerId>, k: nat)
    requires DistinctIds(r.players) && k < |r.players|
    requires r.gameState.phase == GameOver(Some(r.players[k].id))
    ensures var f := FilteredGameState(r, viewer);
      && f.winner == Some(r.players[k])
      && f.winner.value.cards == r.players[k].cards
      && f.state.deck == r.gameState.deck
  {
    FindInDistinct(r.players, k);
  }

  /** A hand the viewer is sent unmasked: its own, or the winner's at game over. */
  ghost predicate Exposed(r: RoomValue, id: PlayerId, viewer: Option<PlayerId>)
  {
    viewer == Some(id) || r.gameState.phase == GameOver(Some(id))
  }

  /** Same seats but for the cards in hands the viewer is not sent, which keep their count. */
  ghost predicate OthersRedealt(r: RoomValue, qs: seq<Player>, viewer: Option<PlayerId>)
  {
    && |qs| == |r.players|
    && forall j :: 0 <= j < |r.players| ==>
         && qs[j] == r.players[j].(cards := qs[j].cards)
         && |qs[j].cards| == |r.players[j].cards|
         && (Exposed(r, r.players[j].id, viewer) ==> qs[j].cards == r.players[j].cards)
  }

  lemma {:induction false} FindRedealt(ps: seq<Player>, qs: seq<Player>, id: PlayerId)
    requires |qs| == |ps| && forall j :: 0 <= j < |ps| ==> qs[j].id == ps[j].id
    ensures Find(qs, id) == Find(ps, id)
    decreases |ps|
  {
    if ps != [] && ps[0].id != id {
      FindRedealt(ps[1..], qs[1..], id);
    }
  }

  lemma MaskOfCount(a: seq<Role>, b: seq<Role>)
    requires |a| == |b|
    ensures Mask(a, false) == Mask(b, false)
  {
  }

  /**
   * What the viewer is sent does not depend on the cards of the hands it is
   * not shown, only on how many there are. At game over the winner's hand is
   * shown, so this holds for every hand but the viewer's and the winner's.
   */
  lemma ViewIndependentOfOthers(r: RoomValue, ps: seq<Player>, viewer: Option<PlayerId>)
    requires OthersRedealt(r, ps, viewer)
    ensures FilteredGameState(r.(players := ps), viewer) == FilteredGameState(r, viewer)
  {
    var f, g := FilteredGameState(r, viewer), FilteredGameState(r.(players := ps), viewer);
    forall j | 0 <= j < |ps| ensures g.players[j] == f.players[j] && g.playersList[j] == f.playersList[j] {
      MaskOfCount(r.players[j].cards, ps[j].cards);
    }
    match r.gameState.phase
    case GameOver(Some(id)) =>
      FindRedealt(r.players, ps, id);
    case _ =>
  }
}
