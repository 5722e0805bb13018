# A verified model of an online Coup game server

This project models, in Dafny, the core of a server for Coup: a bluffing card
game for two to six players. Each turn one player declares one of seven
actions. Others may challenge the role the actor claims, or counter (block)
the effect. A player who loses every card is out, and the last one alive wins.

The source has three parts. The model follows them:

- **the game engine** (`engine/GameEngine.js`) — the per-room lock, timers,
  the phase machine, disconnect sweeps, dealing, drawing and discarding, the
  seven actions, challenges, counters, discards, turn rotation, and the
  per-viewer game state;
- **the socket layer** (`socket/SocketManager.js`) — the room-level checks and
  state changes of the join, start, action, challenge, counter, discard,
  reconnect and disconnect handlers, and the two timeout resolvers;
- **the room manager** (`room/RoomManager.js`) — room creation, membership,
  capacity, statistics, idle cleanup, and export/import.

Each part has two layers.

The **pure layer** holds the semantics, as functions on values, together with
the lemmas about them:

| module | holds |
|---|---|
| `Cards` | roles, the 15-card deck, multiset helpers |
| `State` | players, rooms and phases as datatypes; seat lookup and seat update |
| `Seats` | the seat walk behind `nextTurn`: offsets, the living players, the start seat and the skip log |
| `Rules` | lock, phase changes, sweep, draw and discard |
| `Turns` | `initializeGame`, `nextTurn`, `advancePhase` |
| `Actions` | `executeAction` |
| `Responses` | challenge, counter and discard handling |
| `View` | the filtered, per-viewer game state |
| `SocketRules` | the socket handlers and the timeout resolvers |
| `RoomRules` | the room manager's arithmetic and its export format |

A JavaScript function becomes a function that returns a `Step`. A `Step`
holds three things:

- the new room;
- the scheduler effects it asks for (`ClearTimer`, `ScheduleAdvance` for
  `setImmediate(advancePhase)`, `StartTimer`);
- how the call exits: it returns a value, or it throws (`Raised`).

`withLock` catches a throw, answers `null`, and clears the lock.

The JavaScript reads the clock and calls `Math.random`. In the model these
come in as an `Env` parameter, which holds:

- the current time;
- a shuffling function, assumed to permute the deck;
- the random index picks.

The **imperative layer** has the source's objects, as classes whose fields
the methods update in place:

- `Engine.Room` holds a room's record;
- `Engine.GameEngine` holds the timer map and the queue of deferred
  `advancePhase` calls;
- `Sockets.SocketManager` holds the rooms and the socket-to-player map;
- `Rooms.RoomManager` holds the rooms map and their insertion order.

Each method's `ensures` ties the new state to the pure function of the old
state. The loops (the sweep, dealing, the seat search in `nextTurn`, the two
passes of the cleanup) carry their own invariants.

Proved properties include:

- each action's effect and its rejections;
- conservation of the 15 cards under the lock;
- that `executeAction`, `handleChallenge`, `handleCounter` and
  `handleDiscard` never leave a player with negative coins;
- that in a room driven only through the socket handlers no challenge or
  counter window is ever pending (`SocketRules.DeliverStaysQuiet`); for the
  engine called directly this is not proved;
- first-responder-wins for challenges and counters, and that a second
  response is refused;
- that in the players map of a filtered state every hand but the viewer's own
  is masked, and that at game over every viewer is also sent the winner's hand;
- that a firing timer changes nothing;
- that export followed by import round-trips;
- that idle cleanup removes exactly the stale rooms.

Some behaviours of the code are easy to miss. The model follows the code, and
lemmas state the behaviour (the exceptions are listed under "Left out"):

- `initializeGame` never sets `currentPlayer`. So no `executeAction` request
  sent through the socket layer is ever accepted (`SocketRules.NoTurnIsEverTaken`).
- The handlers for an action, a challenge, a counter and a discard, and the
  disconnect check, call the engine inside `withLock`. So each `setPhase`
  (and `nextTurn`, and any further `withLock`) reached from them finds the
  lock held and is dropped. `handleStartGame` is the exception: it calls
  `initializeGame` outside any lock, so the closing `setPhase(TURN_START)`
  sweeps, clears the timer and schedules `advancePhase`
  (`SocketRules.StartGameDeals`). `handleJoinRoom` and `handleReconnect` call
  no engine method that changes state.
- A timer's callback runs inside `withLock`, and both timeout resolvers take
  the lock again. So a firing timer does nothing (`Sockets.SocketManager.FireTimer`).
- When at least two players are alive and none of them is connected,
  `nextTurn` recurses until the stack overflows. This is modelled as a throw.
- `drawCard` with an empty deck and an empty discard pile draws nothing.
- A `disconnectTime` of 0 is falsy in the sweep, so that player never
  expires.
- `forceEliminatePlayer` empties the hand without putting the cards on the
  discard pile. Card conservation is therefore stated for the locked paths,
  where the sweep cannot run.
- A disconnected player is swept once the disconnection has lasted strictly
  more than 60000 milliseconds (`engine/GameEngine.js:79`); at exactly 60000
  they stay.
- `getFilteredGameState` masks the hands in `players` only. The copy of the
  game state it starts from keeps the deck in its order, and at game over the
  phase's data holds the winner's player object, hand included. Every viewer
  is sent both (`View.ViewShowsWinner`).

## Model

| member | source | states |
|---|---|---|
| Cards.FullDeck | engine/GameEngine.js:169-171 | the unshuffled deck has fifteen cards, three of each of the five roles |
| Cards.InitializeDeck | engine/GameEngine.js:169-172 | `initializeDeck` under any true shuffle yields fifteen cards, three of every role (only the order is left to the shuffle) |
| State.Find | engine/GameEngine.js:93 | `players.get(id)` yields the first seat holding that id, or nothing when no seat does |
| State.FindOpt | engine/GameEngine.js:104-106 | a `null` id finds nothing; a present id finds what `Find` finds |
| State.FindInDistinct | engine/GameEngine.js:93 | with distinct ids (a `Map`'s keys), looking up a seat's own id finds that seat |
| State.PickIndex | engine/GameEngine.js:276 | a `Math.floor(Math.random() * n)` choice always lies below `n` |
| Seats.Walk | engine/GameEngine.js:615-620 | the seat `d` steps after `s` stays on the table, and returns to `s` only after a full round |
| Seats.WalkStep | engine/GameEngine.js:619 | one more `(nextIndex + 1) % size` step is one more offset |
| Seats.OffsetOf | engine/GameEngine.js:615-620 | every seat is reached from the start seat at some offset below the table size |
| Seats.FirstOffset | engine/GameEngine.js:618-620 | the least offset whose seat is eligible; every offset before it is ineligible, and the table size when none is |
| Seats.FirstOffsetIs | engine/GameEngine.js:618-620 | an eligible seat bounds the search, and is its answer when no eligible seat comes before it |
| Seats.Living | engine/GameEngine.js:606 | `filter(p => p.isAlive)`: only alive players, and every alive player |
| Seats.LivingHead | engine/GameEngine.js:608 | `alivePlayers[0]` is the alive player in the lowest seat |
| Seats.AnotherAlive | engine/GameEngine.js:607 | with two players alive, any seat has an alive seat other than itself |
| Seats.StartSeat | engine/GameEngine.js:615 | `(turnIndex + 1) % size` is a seat, namely the next one or seat 0 after the last |
| Seats.FirstAliveBeforeWrap | engine/GameEngine.js:615-620 | with two players alive, the `while (!isAlive)` loop stops before coming back round, on a seat other than the current one |
| Seats.SkipShortens | engine/GameEngine.js:627-631 | skipping a disconnected alive seat brings the first alive connected seat strictly closer: the recursion of `nextTurn` ends |
| Seats.SkipLogOverDead | engine/GameEngine.js:618-629 | dead seats add no skip entry to the log |
| Seats.SkipLogShift | engine/GameEngine.js:627-631 | the skip log of a walk restarted `m` seats later is the same log counted `m` offsets on |
| Rules.WithLock | engine/GameEngine.js:58-70 | a held lock returns `null` and changes nothing; otherwise the body runs with the lock set, an exception becomes `null`, and the lock is clear afterwards on every path |
| Rules.Knocked | engine/GameEngine.js:96-97 | the eliminated player keeps id and name, is dead and holds no card |
| Rules.ForceEliminate | engine/GameEngine.js:92-100 | an unknown id changes nothing; otherwise exactly that seat is knocked out and one `ForcedOut` entry is logged |
| Rules.ExpiredIds | engine/GameEngine.js:75-84 | the ids collected are at most one per seat |
| Rules.EliminateAll | engine/GameEngine.js:86-88 | eliminating the collected ids keeps the seat count and the lock |
| Rules.Sweep | engine/GameEngine.js:73-89 | `checkDisconnectedPlayers` keeps the seat count and the lock |
| Rules.ExpiredIdsStep | engine/GameEngine.js:77-84 | the `forEach` adds one id and one log entry per expired seat, in seating order |
| Rules.EliminateAllSnoc | engine/GameEngine.js:86-88 | eliminating one more id is one more `forceEliminatePlayer` call after the rest |
| Rules.SweptPrefixFinds | engine/GameEngine.js:86-88 | a partial sweep keeps every id, so the next collected id still finds its own seat |
| Rules.SweepPrefixIs | engine/GameEngine.js:73-89 | sweeping the first `m` seats knocks out exactly the expired ones among them and logs one entry each |
| Rules.SweepExact | engine/GameEngine.js:73-100 | the sweep knocks out exactly the players disconnected for more than 60000 ms (a zero `disconnectTime` never expires), logs one entry each in seating order, and changes nothing else |
| Rules.EliminateAllKeepsCoins | engine/GameEngine.js:92-100 | eliminations keep every seat's id, name and coins |
| Rules.SweepKeepsCoins | engine/GameEngine.js:73-89 | the sweep takes hands and lives, never coins or seats |
| Rules.SetPhase | engine/GameEngine.js:17-33 | `setPhase` never raises and keeps the lock and seat count; under a held lock it changes nothing and asks nothing; otherwise it clears the timer and schedules `advancePhase` |
| Rules.SetPhaseUnderLock | engine/GameEngine.js:17-33 | `setPhase` is exactly its body (set phase, sweep, clear, schedule) run by `withLock` |
| Rules.EliminateAllFrame | engine/GameEngine.js:92-100 | eliminations touch only the players and the log |
| Rules.SweepFrame | engine/GameEngine.js:73-89 | the sweep touches only the players and the log |
| Rules.SweepLockIndependent | engine/GameEngine.js:17-26 | sweeping under the lock gives the same room as sweeping without it, once the lock is released |
| Rules.DrawCard | engine/GameEngine.js:175-181 | a draw touches only deck and discard pile; from a non-empty deck it pops the top card and leaves the pile alone; an empty deck takes over the pile, which is then empty |
| Rules.DrawCardConserves | engine/GameEngine.js:175-181 | with a true shuffle no card is lost or made, and the draw comes up empty exactly when deck and pile both are |
| Rules.Without | engine/GameEngine.js:190 | `splice(idx, 1)` removes exactly that one card |
| Rules.DiscardCard | engine/GameEngine.js:184-201 | the discard succeeds exactly for a known, alive player and an index inside the hand; a refused one changes nothing |
| Rules.DiscardRejects | engine/GameEngine.js:185-188 | an unknown or dead player, or an index outside the hand, gives `false` and the same room |
| Rules.ReplaceHand | engine/GameEngine.js:190-197 | replacing a hand changes the room's cards by exactly the difference of the two hands |
| Rules.DiscardMoveConserves | engine/GameEngine.js:190-191 | the card leaving the hand is the card added to the pile |
| Rules.RefillConserves | engine/GameEngine.js:196-197 | the card drawn to refill the hand leaves the deck or pile |
| Rules.DiscardConservesCards | engine/GameEngine.js:184-201 | hands, deck and pile together keep the same cards through any discard |
| Rules.DiscardHandSize | engine/GameEngine.js:194-198 | from a two-card hand the player draws back to two and stays alive; from a one-card hand the hand empties and the player dies; no other seat changes |
| Rules.DiscardOnTop | engine/GameEngine.js:190-191 | unless an empty deck had to be refilled from the pile, the discarded card lands on top of the pile |
| Rules.DiscardFrame | engine/GameEngine.js:184-201 | a discard touches only the players, deck and pile, and no seat's id, name or coins |
| Actions.ClaimedRole | engine/GameEngine.js:453-459 | tax, assassinate, steal and exchange claim a role (Duke, Assassin, Captain, Ambassador); the other actions claim none |
| Actions.CoinTotalUpdate | engine/GameEngine.js:231 | changing one seat's coins changes the table's total by exactly that seat's difference |
| Actions.SameCoinsTotal | engine/GameEngine.js:370-374 | helper for the steal lemmas (`Actions.StealTransfers`, `Responses.ChallengeUpheldSteal`): tables with the same coins seat by seat hold the same total, so the steal's kept total survives the turn rotation and the challengers' penalties |
| Actions.Blockers | engine/GameEngine.js:241-248 | the potential blockers are exactly the alive holders of the role (other than the actor, or equal to the target), by id, in seating order; none means no blocker exists |
| Actions.Strike | engine/GameEngine.js:274-282 | the target loses a card picked by the random index (logged as lost), or is eliminated with no card; coins, seats and everything but deck and pile stay |
| Actions.StealAmount | engine/GameEngine.js:370 | `min(coins, 2)`: never more than two, never more than the target has, never negative |
| Actions.Transfer | engine/GameEngine.js:370-372 | the steal moves `min(coins, 2)` and changes nothing but the players |
| Actions.MoveCoinsTotal | engine/GameEngine.js:371-372 | the stolen amount leaving one seat and reaching another keeps the table's total |
| Actions.TransferSeats | engine/GameEngine.js:371-372 | the target pays first, then the actor is paid |
| Actions.TransferMoves | engine/GameEngine.js:370-372 | a steal moves coins only between the pair, by the amount taken; the total stays and a solvent target is not overdrawn |
| Actions.Regroup | engine/GameEngine.js:392-396 | the exchange's regroup keeps the seat count |
| Actions.Swap | engine/GameEngine.js:391-396 | an exchange keeps seat count, lock and phase |
| Actions.DeclareIncome | engine/GameEngine.js:230-234 | the income case records the actor, action and target; inside a held lock it neither moves the phase nor asks the scheduler |
| Actions.DeclareForeignAid | engine/GameEngine.js:236-256 | as for income, for the foreign aid case |
| Actions.DeclareCoup | engine/GameEngine.js:258-283 | as for income, for the coup case |
| Actions.DeclareTax | engine/GameEngine.js:285-301 | as for income, for the tax case |
| Actions.DeclareAssassinate | engine/GameEngine.js:303-342 | as for income, for the assassinate case |
| Actions.DeclareSteal | engine/GameEngine.js:344-374 | as for income, for the steal case |
| Actions.DeclareExchange | engine/GameEngine.js:376-399 | as for income, for the exchange case |
| Actions.Declare | engine/GameEngine.js:220-400 | the `switch` always records actor, action and target, also for an unrecognised action name |
| Actions.Finish | engine/GameEngine.js:402-406 | the record is returned whether or not the turn advanced; without an advance the room is the `switch`'s; the lock is kept |
| Actions.ExecuteAction | engine/GameEngine.js:204-407 | a missing or dead actor, a phase other than `TURN_START`, or another player's turn gives `null` and changes nothing; an accepted call returns a record of that actor, action and target; the lock is kept |
| Actions.Price | engine/GameEngine.js:258-313 | a coup costs 7 coins, an assassination 3 |
| Actions.ExecuteFails | engine/GameEngine.js:258-313 | a coup or assassination the actor cannot afford, or aimed at a missing or dead target: a failed record with one log line, the room untouched, no turn advance |
| Actions.ExecuteGains | engine/GameEngine.js:230-301 | income (+1), unblockable foreign aid (+2) and tax by a Duke holder (+3) pay exactly the actor and then advance the turn |
| Actions.ExecuteOpensChallenge | engine/GameEngine.js:285-399 | a tax, steal or exchange without the claimed role opens a challenge window on the returned record with no challengers; no coin moves and the turn stays; the phase becomes `CHALLENGE_WINDOW` unless a held lock drops it |
| Actions.ExecuteAidBlockable | engine/GameEngine.js:240-252 | foreign aid that another alive Duke holder could block opens a counter window for exactly those players, never the actor; no coin moves and the turn stays |
| Actions.AssassinationParks | engine/GameEngine.js:315-331 | seat-level form of `ExecuteAssassinationBlockable` |
| Actions.ExecuteAssassinationBlockable | engine/GameEngine.js:303-331 | an affordable assassination of a live Contessa holder takes exactly 3 coins from the actor and opens a counter window for the target alone |
| Actions.StealTransfers | engine/GameEngine.js:370-374 | seat-level form of `ExecuteSteal` |
| Actions.ExecuteSteps | engine/GameEngine.js:220-406 | an accepted call is the `switch` followed by the turn check |
| Actions.ExecuteSteal | engine/GameEngine.js:344-374 | a Captain holder stealing from another live player with coins takes `min(coins, 2)`: the pair's coins move by that, nobody else's change, the total stays, the turn advances |
| Actions.StealFindsNothing | engine/GameEngine.js:355-358 | seat-level form of `ExecuteStealNothing` |
| Actions.ExecuteStealNothing | engine/GameEngine.js:344-406 | stealing from a live target with no coins moves nothing, logs two lines, and still advances the turn |
| Actions.ExecuteStealNoTarget | engine/GameEngine.js:344-353 | stealing from a missing or dead target returns a record marked successful, yet the room is untouched and the turn stays |
| Actions.ExecuteCoup | engine/GameEngine.js:258-283 | an affordable coup on a live player costs exactly 7 coins and nobody else pays; the room is then `nextTurn` of the struck room; under a true shuffle the target with two cards discards one and stays alive at two, a target with one card or none ends with no card and dead, no third seat changes and no card is lost; the log is the coup and then the loss or the elimination |
| Actions.CoupDeclared | engine/GameEngine.js:258-283 | an affordable coup on a live target pays 7 and strikes the target, and settles successfully with no window |
| Actions.CoupLands | engine/GameEngine.js:258-283 | seat-level form of `ExecuteCoup` |
| Actions.DiscardStrikes | engine/GameEngine.js:184-201 | a live player discarding a held card succeeds; with two cards they draw back to two and stay alive, with one they end empty and dead; id, name and every other seat stay |
| Actions.StrikeHits | engine/GameEngine.js:274-282 | under a true shuffle a live target is struck (two to two and alive, or one or none to empty and dead), no other seat changes and no card is lost |
| Actions.PaidKeeps | engine/GameEngine.js:270 | paying changes only the payer's coins, so the target is still found at its seat and no card moves |
| Actions.PaidStrike | engine/GameEngine.js:270-282 | paying and then striking strikes the target, changes no third seat and loses no card |
| Actions.AssassinationDeclared | engine/GameEngine.js:303-342 | an affordable assassination of a live target no Contessa protects pays 3 and strikes the target, and settles successfully with no window |
| Actions.AssassinationLands | engine/GameEngine.js:303-342 | seat-level form of `ExecuteAssassinationStrikes` |
| Actions.ExecuteAssassinationStrikes | engine/GameEngine.js:303-342 | an affordable assassination of a live player holding no Contessa costs exactly 3 coins and nobody else pays; the room is then `nextTurn` of the struck room; under a true shuffle the target discards one card and stays alive at two, or ends empty and dead, no third seat changes and no card is lost; the log is the claim and then the assassination or the elimination |
| Actions.WindowsKeepCoins | engine/GameEngine.js:290-296 | opening a challenge or a counter window changes no id, name or coin count |
| Actions.SwapKeepsCoins | engine/GameEngine.js:390-396 | an exchange changes no id, name or coin count |
| Actions.PaySolvent | engine/GameEngine.js:270 | an affordable payment leaves everyone with non-negative coins |
| Actions.TransferSolvent | engine/GameEngine.js:370-372 | a steal leaves everyone with non-negative coins |
| Actions.CoupSolvent | engine/GameEngine.js:258-283 | a coup, refused or carried out, leaves everyone with non-negative coins |
| Actions.AssassinateSolvent | engine/GameEngine.js:303-342 | an assassination, refused, parked or carried out, leaves everyone with non-negative coins |
| Actions.StealSolvent | engine/GameEngine.js:344-374 | a steal, refused, parked or carried out, leaves everyone with non-negative coins |
| Actions.AidSolvent | engine/GameEngine.js:236-256 | foreign aid, paid or parked, leaves everyone with non-negative coins |
| Actions.TaxSolvent | engine/GameEngine.js:285-301 | tax, paid or parked, leaves everyone with non-negative coins |
| Actions.ExchangeSolvent | engine/GameEngine.js:376-399 | an exchange, carried out or parked, leaves everyone with non-negative coins |
| Actions.DeclareSolvent | engine/GameEngine.js:220-400 | every case of the `switch` keeps every player's coins non-negative |
| Actions.ExecuteSolvent | engine/GameEngine.js:204-407 | `executeAction` never leaves a player with negative coins |
| Actions.SwapKeepsHand | engine/GameEngine.js:391-396 | with two cards in hand and two in the deck, the hand is kept and the two drawn cards go to the pile in drawing order |
| Actions.SplitKeeps | engine/GameEngine.js:395-396 | `slice(0, 2)` and `slice(2)` together hold every card |
| Actions.RegroupAdds | engine/GameEngine.js:392-396 | regrouping adds exactly the drawn cards to the room, some kept, the rest on the pile |
| Actions.TwoDrawsConserve | engine/GameEngine.js:391 | two draws take out of deck and pile exactly the cards they return |
| Actions.SwapConserves | engine/GameEngine.js:390-396 | with a true shuffle an exchange neither loses nor makes up a card |
| Actions.ExchangeSwaps | engine/GameEngine.js:390-399 | seat-level form of `ExecuteExchange` |
| Actions.ExecuteExchange | engine/GameEngine.js:376-399 | an exchange by an Ambassador holder is the swap followed by the turn advance; no coin moves |
| Turns.Rotated | engine/GameEngine.js:622-623 | `turnIndex` becomes the seat and `currentPlayer` that seat's id; the players stay |
| Turns.Survivor | engine/GameEngine.js:606-609 | the winner is `null` exactly when nobody is alive, and otherwise an alive player's id |
| Turns.PickSeat | engine/GameEngine.js:606-631 | one round of `nextTurn`: game over exactly when at most one player is alive, with the survivor as winner; otherwise the first alive seat after `turnIndex`, landed on when connected and skipped when not |
| Turns.SkipStep | engine/GameEngine.js:627-631 | skipping the first alive seat leaves the walk one step nearer a connected seat |
| Turns.PickSkip | engine/GameEngine.js:627-631 | a skipped seat is the first alive one, and the walk resumes after it strictly nearer its end |
| Turns.PickLand | engine/GameEngine.js:618-634 | a landing seat is both the first alive and the first alive connected seat |
| Turns.NextTurn | engine/GameEngine.js:604-635 | `nextTurn` keeps the lock and the seat count; under a held lock it asks the scheduler nothing and leaves players and phase alone |
| Turns.NextTurnKeepsCoins | engine/GameEngine.js:604-635 | turn rotation moves no coin and reorders no seat |
| Turns.NextTurnFrame | engine/GameEngine.js:604-635 | turn rotation touches only the seats (through the sweep), the turn fields, the phase, the log and the winner |
| Turns.NextTurnGameOver | engine/GameEngine.js:606-612 | with at most one player alive the survivor (or `null`) is recorded as winner, the turn stays, and the phase becomes `GAME_OVER` unless a held lock drops it |
| Turns.AppendRotated | engine/GameEngine.js:622-630 | rotating twice with a log entry between is one rotation to the later seat with both entries |
| Turns.SkipLogFromPick | engine/GameEngine.js:618-630 | the skip log starts with the first alive seat's entry, then continues from the seat after it |
| Turns.NextTurnSkipped | engine/GameEngine.js:622-631 | a disconnected pick is recorded as current, logged once, and `nextTurn` runs again from that seat |
| Turns.NextTurnLanded | engine/GameEngine.js:622-634 | a connected pick gets the turn through `setPhase(TURN_START)` with that player's id |
| Turns.EndSeat | engine/GameEngine.js:618-634 | the seat the recursion ends on is a seat of the table |
| Turns.WalkOnLand | engine/GameEngine.js:627-634 | when the first pick is connected the walk ends there and logs nothing |
| Turns.WalkAfterSkip | engine/GameEngine.js:627-631 | after a skip the walk ends on the same seat, the skipped player's entry first in its log |
| Turns.LandsOnPick | engine/GameEngine.js:634 | stopping case of `NextTurnLands` |
| Turns.LandsAfterSkip | engine/GameEngine.js:627-631 | recursive case of `NextTurnLands` |
| Turns.NextTurnLands | engine/GameEngine.js:604-635 | when some alive player is connected, the turn goes to the first alive connected seat after `turnIndex`, every alive seat passed over is logged once in walking order, and then `setPhase(TURN_START)` runs for that player |
| Turns.NextTurnFirstPick | engine/GameEngine.js:615-623 | with two players alive the loop's pick is an alive seat other than `turnIndex`, every seat it passes is dead, and a connected pick takes the turn |
| Turns.NextTurnRaisesIff | engine/GameEngine.js:627-631 | with two players alive, `nextTurn` recurses without end (an exception here) exactly when no alive player is connected, and then the room is unchanged |
| Turns.GetCurrentPlayer | engine/GameEngine.js:103-107 | a found player is the seat whose id is `currentPlayer`; a `null` `currentPlayer` finds nothing |
| Turns.AdvancePhase | engine/GameEngine.js:110-146 | with no current player, or a connected one, `advancePhase` changes nothing: every phase case is empty |
| Turns.DealSeat | engine/GameEngine.js:156-163 | dealing one player keeps the seat count |
| Turns.Deal | engine/GameEngine.js:156-163 | from a deck with enough cards, each dealt seat has 2 coins, the next two cards from the top and is alive; undealt seats and everything but players and deck stay |
| Turns.DealStep | engine/GameEngine.js:156 | the `forEach` deals seat by seat in seating order |
| Turns.DealNext | engine/GameEngine.js:157-162 | the next seat takes the top two cards of what the earlier seats left |
| Turns.DealTouches | engine/GameEngine.js:156-163 | dealing touches only the players, the deck and the discard pile |
| Turns.DealSeatTouches | engine/GameEngine.js:157-162 | dealing one seat touches only the players, the deck and the discard pile |
| Turns.Prepared | engine/GameEngine.js:150-153 | the resets before dealing keep the players |
| Turns.DealSeatPops | engine/GameEngine.js:157-162 | from a deck of at least two, a seat pops the top two cards into its hand, in drawing order |
| Turns.TopTwoMore | engine/GameEngine.js:159-160 | the top `2 m` cards are the top `2 (m - 1)` and the two below them |
| Turns.DealtHands | engine/GameEngine.js:156-163 | dealt hands plus what is left make up the deck |
| Turns.DealKeepsCards | engine/GameEngine.js:156-163 | dealing every seat from a deck with enough cards and an empty pile loses no card |
| Turns.AllSeatsDealt | engine/GameEngine.js:156-163 | with every seat dealt, hands and remaining deck are the whole deck |
| Turns.InitializeGameDeals | engine/GameEngine.js:149-165 | before the phase change every player has 2 coins and two cards and is alive, the deck keeps `15 - 2n` cards, the pile is empty, `turnIndex` is 0 and `lastAction` `null`, and hands plus deck hold three of every role |
| Turns.DealtStarts | engine/GameEngine.js:165 | the closing `setPhase` spares every connected player's deal: only its sweep can touch a seat |
| Turns.InitializeGameStarts | engine/GameEngine.js:149-165 | without the lock: the phase becomes `TURN_START` with the timer cleared and `advancePhase` scheduled, the deck keeps `15 - 2n` cards, and every connected player holds 2 coins and two cards and is alive |
| Responses.AddChallenger | engine/GameEngine.js:431 | `challengers.add(id)`: the id is present afterwards, nothing else is added, and a present id changes nothing |
| Responses.AddChallengerKeepsSet | engine/GameEngine.js:431 | the challenger list stays free of repeats and grows by at most one |
| Responses.DiscardKeepsOthers | engine/GameEngine.js:184-201 | a discard changes no seat but the discarder's |
| Responses.Penalize | engine/GameEngine.js:467-474 | one log entry at most per challenger, and the seat count stays |
| Responses.PenalizeFrame | engine/GameEngine.js:467-474 | the challengers' discards move no coin, touch only players, deck and pile, and leave every non-challenger alone |
| Responses.PenalizeConserves | engine/GameEngine.js:467-474 | with a true shuffle the challengers' discards lose no card |
| Responses.Carry | engine/GameEngine.js:477-485 | carrying an upheld claim out touches only the players and keeps the seat count |
| Responses.SameHandsCards | engine/GameEngine.js:477-485 | seats with the same hands hold the same cards |
| Responses.FindSameIds | engine/GameEngine.js:468 | after coin or card moves a challenger's id is found at the same seat |
| Responses.CoinsKeepCards | engine/GameEngine.js:477-485 | moving coins keeps every card where it was |
| Responses.CarryKeepsHands | engine/GameEngine.js:477-485 | carrying the claim out changes no hand |
| Responses.Settle | engine/GameEngine.js:441-500 | the result names the action and its challengers, and the challenge is won exactly when the actor lacks the claimed role |
| Responses.ResolveChallenge | engine/GameEngine.js:441-504 | an actor who has left makes `actor.cards` throw and nothing changes; otherwise the result names the action and its challengers |
| Responses.HandleChallenge | engine/GameEngine.js:410-438 | outside a challenge window, without pending data, with a missing or dead challenger or a missing actor the answer is `null` and nothing changes; otherwise a result, after which `challengeData` is cleared |
| Responses.Proceed | engine/GameEngine.js:548-561 | the countered action goes ahead without asking the scheduler; it throws exactly for foreign aid whose actor has left; other actions do nothing |
| Responses.Respond | engine/GameEngine.js:517-581 | the result names the action and the responder, and the action is blocked exactly when the responder blocks holding the role |
| Responses.HandleCounter | engine/GameEngine.js:507-588 | outside a counter window, without pending data, or from a missing or dead responder the answer is `null` and nothing changes; otherwise a result, after which `counterData` is cleared |
| Responses.HandleDiscard | engine/GameEngine.js:591-601 | outside phase `DISCARD` the answer is `null`; a refused discard is `false` with nothing changed |
| Responses.SettleSolvent | engine/GameEngine.js:441-500 | settling a challenge, either way, leaves everyone with non-negative coins |
| Responses.HandleChallengeSolvent | engine/GameEngine.js:410-438 | `handleChallenge` never leaves a player with negative coins |
| Responses.ProceedSolvent | engine/GameEngine.js:548-561 | the countered action going ahead leaves everyone with non-negative coins |
| Responses.RespondSolvent | engine/GameEngine.js:517-581 | answering a counter, either way, leaves everyone with non-negative coins |
| Responses.HandleCounterSolvent | engine/GameEngine.js:507-588 | `handleCounter` never leaves a player with negative coins |
| Responses.HandleDiscardSolvent | engine/GameEngine.js:591-601 | `handleDiscard` never leaves a player with negative coins |
| Responses.ChallengeResolvesOnce | engine/GameEngine.js:434-435 | after a challenge is resolved, any further challenge is `null` and changes nothing: a claim is settled once |
| Responses.ChallengeUpheld | engine/GameEngine.js:461-485 | an upheld claim loses the challenge for the challengers; the actor keeps the very hand it showed (no replacement card) unless it challenged itself; tax pays the actor exactly 3; claims other than tax and steal move no coin |
| Responses.ChallengeUpheldSteal | engine/GameEngine.js:478-484 | an upheld steal from a target with coins moves `min(coins, 2)` to the actor, keeps the total, and leaves the target non-negative |
| Responses.ChallengerPays | engine/GameEngine.js:467-474 | a lone live challenger with cards makes one successful discard and is logged |
| Responses.ChallengeRefuted | engine/GameEngine.js:486-500 | a refuted claim wins the challenge; the actor, alive and holding cards, makes one successful discard; an assassination is refunded its 3 coins; no other seat changes |
| Responses.SettleConserves | engine/GameEngine.js:441-500 | with a true shuffle resolving a challenge neither loses nor makes up a card |
| Responses.RefutedConserves | engine/GameEngine.js:486-499 | with a true shuffle a refuted claim, its penalty card and any refund neither lose nor make up a card |
| Responses.CounterResolvesOnce | engine/GameEngine.js:584 | after a counter is resolved, any further response is `null` and changes nothing |
| Responses.BlockStands | engine/GameEngine.js:524-536 | a block by a holder of the role stops the action; only an assassination's 3 coins return to its actor |
| Responses.BlockBluffed | engine/GameEngine.js:537-562 | a block by someone without the role costs them one successful discard, then the action proceeds as if unopposed |
| Responses.BlockWaived | engine/GameEngine.js:563-581 | a declined counter lets the action proceed on the untouched room |
| Responses.ProceedAid | engine/GameEngine.js:551-553 | foreign aid going ahead pays its actor exactly 2 and moves no card |
| Responses.ProceedAssassination | engine/GameEngine.js:554-560 | an assassination going ahead on a target with cards costs the target one successful discard if alive; no coin moves and no other seat changes |
| Responses.ProceedConserves | engine/GameEngine.js:548-561 | with a true shuffle an action going ahead loses no card |
| Responses.RespondConserves | engine/GameEngine.js:517-581 | with a true shuffle answering a counter window loses no card |
| View.Mask | engine/GameEngine.js:646 | the viewer's own hand is shown card for card; any other hand is one `'hidden'` per card |
| View.RevealOwn | engine/GameEngine.js:646 | the viewer's own hand reads back exactly from its view |
| View.RevealOther | engine/GameEngine.js:646 | another player's view reveals no card |
| View.SeatView | engine/GameEngine.js:644-648 | `cardsCount` is the hand's size, and so is the number of card placeholders |
| View.WinnerRecord | engine/GameEngine.js:608-610 | at game over the phase's winner is a player of the room whose id the phase names, and otherwise there is none |
| View.FilteredGameState | engine/GameEngine.js:638-663 | the game state is copied as it is, deck included; the winner object is a player of the room that the game-over phase names; one view and one list entry per seat |
| View.ViewHidesOthers | engine/GameEngine.js:638-663 | in the players map the viewer's own hand reads back exactly and every other hand reveals no card; the players map and `playersList` agree with the room on every seat's coins, card count and life |
| View.MaskOfCount | engine/GameEngine.js:646 | hidden hands of equal size look the same |
| View.ViewShowsWinner | engine/GameEngine.js:608-610 | at game over every viewer is sent the winner's player record with its whole hand, and the deck as it lies |
| View.FindRedealt | engine/GameEngine.js:93 | seats with the same ids in the same order are found at the same places |
| View.ViewIndependentOfOthers | engine/GameEngine.js:638-663 | what a viewer is sent does not depend on the cards of any hand but the viewer's own and, at game over, the winner's; of the others only the count matters |
| Engine.PerformConcat | engine/GameEngine.js:36-55 | effects asked for one after another are performed one after another |
| Engine.PerformElsewhere | engine/GameEngine.js:36-55 | a room's effects touch no other room's timer and only append deferred calls for that room |
| Engine.GameEngine.ClearTimer | engine/GameEngine.js:49-55 | the room's timer is cancelled and forgotten; no other entry changes |
| Engine.GameEngine.StartTimer | engine/GameEngine.js:36-46 | the room's previous timer is replaced by one with the new delay and callback |
| Engine.GameEngine.Defer | engine/GameEngine.js:29-31 | one deferred `advancePhase` call for the room joins the queue |
| Engine.GameEngine.Acquire | engine/GameEngine.js:59-61 | entry is refused exactly when the lock is held; the lock is then set |
| Engine.GameEngine.Release | engine/GameEngine.js:67-69 | the lock is cleared and nothing else changes |
| Engine.GameEngine.ForceEliminatePlayer | engine/GameEngine.js:92-100 | the room afterwards is `ForceEliminate` of the room before |
| Engine.GameEngine.CheckDisconnectedPlayers | engine/GameEngine.js:73-89 | the two loops leave the room as `Sweep` defines it |
| Engine.GameEngine.SetPhase | engine/GameEngine.js:17-33 | room and scheduler afterwards are those of `Rules.SetPhase` |
| Engine.GameEngine.DrawCard | engine/GameEngine.js:175-181 | room and card are those of `Rules.DrawCard` |
| Engine.GameEngine.DiscardCard | engine/GameEngine.js:184-201 | room and answer are those of `Rules.DiscardCard`; the room's code stays |
| Engine.GameEngine.DealSeatInPlace | engine/GameEngine.js:157-162 | one seat dealt in place, as `DealSeat` |
| Engine.GameEngine.DealAll | engine/GameEngine.js:156-163 | the loop deals every seat in order, as `Deal` |
| Engine.GameEngine.InitializeGame | engine/GameEngine.js:149-166 | room and scheduler afterwards are those of `Turns.InitializeGame` |
| Engine.GameEngine.NextAliveSeat | engine/GameEngine.js:615-620 | the `while` loop stops on the first alive seat after `turnIndex` |
| Engine.GameEngine.NextTurn | engine/GameEngine.js:604-635 | room, scheduler and the raised flag are those of `Turns.NextTurn` |
| Engine.GameEngine.AdvancePhase | engine/GameEngine.js:110-146 | room, scheduler and the raised flag are those of `Turns.AdvancePhase` |
| Engine.GameEngine.LockedNextTurn | socket/SocketManager.js:237-239 | `nextTurn` nested in its own `withLock`, as that function defines it |
| Engine.GameEngine.ExecuteAction | engine/GameEngine.js:204-407 | room, scheduler, record and raised flag are those of `Actions.ExecuteAction` |
| Engine.GameEngine.ResolveChallenge | engine/GameEngine.js:441-504 | as `Responses.ResolveChallenge` |
| Engine.GameEngine.HandleChallenge | engine/GameEngine.js:410-438 | as `Responses.HandleChallenge` |
| Engine.GameEngine.HandleCounter | engine/GameEngine.js:507-588 | as `Responses.HandleCounter` |
| Engine.GameEngine.HandleDiscard | engine/GameEngine.js:591-601 | as `Responses.HandleDiscard` |
| SocketRules.Answer | engine/GameEngine.js:58-70 | a `withLock` result as the sender hears it: room and effects as they were, and never an exception |
| SocketRules.JoinRefusals | socket/SocketManager.js:129-137 | a started game refuses every joiner, as does a full room of six; a join is admitted exactly in a waiting room with fewer than six players |
| SocketRules.JoinReattaches | socket/SocketManager.js:140-145 | a known player id keeps its seat, coins and cards and is connected again on the new socket; no other seat changes |
| SocketRules.JoinSeatsNewcomer | socket/SocketManager.js:146-159 | anyone else is seated under a fresh id with 2 coins, no cards, alive and connected; every other id still finds its player; the room never passes six |
| SocketRules.StartGameRefusals | socket/SocketManager.js:181-190 | anyone but a seated host, or a room of fewer than two, is refused with no change; the start goes ahead exactly otherwise |
| SocketRules.StartGameDeals | socket/SocketManager.js:192-193 | the host's start sets status `playing` and deals: a deck of `15 - 2n`, and every connected player with 2 coins, two cards and alive |
| SocketRules.RecordedFacts | socket/SocketManager.js:220-240 | under the lock a record becomes `lastAction`, its log lines close the game log, and a 20 s challenge timer or a 15 s counter timer follows the open window; with none the nested `withLock(nextTurn)` is rejected |
| SocketRules.ExecuteGate | socket/SocketManager.js:205-215 | outside `TURN_START`, or from anyone but the current player, the request is refused before the engine runs, and nothing changes |
| SocketRules.ExecuteOpens | socket/SocketManager.js:217-246 | past the gate, with the lock free, the handler is its locked body run under the room's lock, a swallowed exception heard as nothing |
| SocketRules.ExecuteRecords | socket/SocketManager.js:217-246 | past the gate the record is stored and logged and the timer follows the window, while the engine's own phase change is dropped by the socket's lock: the phase stays `TURN_START` |
| SocketRules.LockedRecord | socket/SocketManager.js:217-246 | `withLock` around a body ending in the record's bookkeeping releases the lock and keeps the bookkeeping |
| SocketRules.CounterGate | socket/SocketManager.js:279-291 | outside a counter window, or from someone not listed as a potential blocker, the request is refused with no change; a held lock drops it silently |
| SocketRules.Disconnected | socket/SocketManager.js:391-393 | the dropped player is disconnected, stamped with the time and has no socket; nothing else about them changes |
| SocketRules.DisconnectMarks | socket/SocketManager.js:389-409 | the mapped player is marked disconnected; unless a game is in progress and it is their turn, nothing else changes |
| SocketRules.DisconnectSkipsTurn | socket/SocketManager.js:380-432 | a current player leaving a game in progress has the turn skipped at once: logged, then `nextTurn` under the lock |
| SocketRules.DisconnectUnknown | socket/SocketManager.js:389-390 | an id not in the room leaves it as it was |
| SocketRules.ReconnectRestores | socket/SocketManager.js:358-369 | reconnecting undoes exactly what disconnecting set, on the new socket |
| SocketRules.ReconnectUnknown | socket/SocketManager.js:358-362 | reconnection is refused exactly for a player not in the room |
| SocketRules.Unchallenged | socket/SocketManager.js:449-474 | the uncontested action keeps the seat count |
| SocketRules.TimeoutsIdle | socket/SocketManager.js:435-510 | with nothing pending either timeout resolver changes nothing |
| SocketRules.ChallengeTimeoutApplies | socket/SocketManager.js:435-479 | with the lock free a challenge timeout clears `challengeData`, logs the timeout, carries the action out uncontested and moves the turn on |
| SocketRules.UnchallengedFrame | socket/SocketManager.js:449-474 | the uncontested action changes only the players, deck, pile and log |
| SocketRules.UnchallengedEffects | socket/SocketManager.js:449-473 | tax pays exactly 3; a steal from a target with coins moves one or two coins and keeps the total; an exchange is only logged and touches no coin or card; an assassination makes a live target with cards discard one (two to two and alive, or one to empty and dead) under a true shuffle, leaves a target without cards as it was, and changes no other seat |
| SocketRules.UnchallengedStrike | socket/SocketManager.js:466-473 | the assassination case of `UnchallengedEffects` |
| SocketRules.CounterTimeoutApplies | socket/SocketManager.js:482-510 | with the lock free a counter timeout clears `counterData` and lets the action proceed as a declined counter would, then moves the turn on |
| SocketRules.ProceedFrame | socket/SocketManager.js:495-505 | the action going ahead changes only players, deck and pile |
| SocketRules.TimerFiresInert | engine/GameEngine.js:39-43 | a timer's callback runs inside `withLock` and each resolver takes the lock again, which is then held: a timeout that fires changes nothing |
| SocketRules.CreatedQuiet | socket/SocketManager.js:74-104 | a created room is unlocked, has no current player, no pending window, and its creator sits in seat 0 |
| SocketRules.StartStaysQuiet | socket/SocketManager.js:192-193 | starting a game never names a current player: `initializeGame` sets `turnIndex` only |
| SocketRules.DeliverStaysQuiet | socket/SocketManager.js:120-510 | no socket event gives a room a current player or a pending window |
| SocketRules.NoTurnIsEverTaken | socket/SocketManager.js:199-216 | in any room the socket layer created, whatever the events, every `executeAction` request naming a player id is refused as not the sender's turn |
| Sockets.SocketManager.HandleCreateRoom | socket/SocketManager.js:69-117 | a new room with its creator as host and only player is stored under its code, and the socket is mapped to it |
| Sockets.SocketManager.HandleJoinRoom | socket/SocketManager.js:120-172 | an unknown code is refused with nothing changed; otherwise the room becomes what `OnJoinRoom` gives, and the socket is mapped only when the join is admitted |
| Sockets.SocketManager.HandleStartGame | socket/SocketManager.js:175-196 | an unknown code does nothing; otherwise room, reply and scheduler are those of `OnStartGame` |
| Sockets.SocketManager.StartGameIn | socket/SocketManager.js:181-193 | as `OnStartGame`, on the room found |
| Sockets.SocketManager.HandleExecuteAction | socket/SocketManager.js:199-247 | an unknown code does nothing; otherwise room, reply and scheduler are those of `OnExecuteAction` |
| Sockets.SocketManager.ExecuteActionIn | socket/SocketManager.js:205-246 | as `OnExecuteAction`, on the room found |
| Sockets.SocketManager.ExecuteUnderLock | socket/SocketManager.js:218-245 | the locked body: room and scheduler as `ExecuteLocked`, and no answer exactly when it raised |
| Sockets.SocketManager.RecordAction | socket/SocketManager.js:220-240 | `lastAction` and the record's log lines, then a 20 s or 15 s timer for the open window, or nothing when the nested `nextTurn` meets the held lock |
| Sockets.SocketManager.HandleChallenge | socket/SocketManager.js:250-270 | an unknown code does nothing; otherwise as `OnChallenge` |
| Sockets.SocketManager.ChallengeIn | socket/SocketManager.js:256-269 | as `OnChallenge`, on the room found |
| Sockets.SocketManager.HandleCounter | socket/SocketManager.js:273-299 | an unknown code does nothing; otherwise as `OnCounter` |
| Sockets.SocketManager.CounterIn | socket/SocketManager.js:279-298 | as `OnCounter`, on the room found |
| Sockets.SocketManager.HandleDiscard | socket/SocketManager.js:302-324 | an unknown code does nothing; otherwise as `OnDiscard` |
| Sockets.SocketManager.DiscardIn | socket/SocketManager.js:308-323 | as `OnDiscard`, on the room found |
| Sockets.SocketManager.HandleReconnect | socket/SocketManager.js:349-377 | an unknown code is refused; otherwise the room becomes what `OnReconnect` gives and the socket is mapped when it succeeds |
| Sockets.SocketManager.CheckDisconnectedPlayerInGame | socket/SocketManager.js:420-432 | room and scheduler afterwards are those of `CheckDisconnectedInGame` |
| Sockets.SocketManager.HandleDisconnect | socket/SocketManager.js:380-417 | an unmapped socket, or one whose room is gone, changes nothing; otherwise the room is as `OnDisconnect` leaves it and the socket's mapping is deleted |
| Sockets.SocketManager.CarryOutUnchallenged | socket/SocketManager.js:449-474 | the uncontested action carried out in place, as `Unchallenged` |
| Sockets.SocketManager.StealUnchallenged | socket/SocketManager.js:454-462 | the steal case, in place |
| Sockets.SocketManager.AssassinateUnchallenged | socket/SocketManager.js:466-473 | the assassinate case, in place |
| Sockets.SocketManager.ChallengeTimeoutUnderLock | socket/SocketManager.js:439-477 | the locked body of the challenge timeout, as `ChallengeTimeoutBody`, raising exactly when it does |
| Sockets.SocketManager.ResolveChallengeTimeout | socket/SocketManager.js:435-479 | room and scheduler afterwards are those of `SocketRules.ResolveChallengeTimeout` |
| Sockets.SocketManager.CarryOutCountered | socket/SocketManager.js:495-505 | the countered action going ahead in place, as `Responses.Proceed`; no log exactly when it raised |
| Sockets.SocketManager.CounterTimeoutUnderLock | socket/SocketManager.js:486-508 | the locked body of the counter timeout, as `CounterTimeoutBody` |
| Sockets.SocketManager.ResolveCounterTimeout | socket/SocketManager.js:482-510 | room and scheduler afterwards are those of `SocketRules.ResolveCounterTimeout` |
| Sockets.SocketManager.FireTimer | engine/GameEngine.js:39-43 | a timer going off runs its callback inside `withLock`: room and scheduler stay exactly as they were |
| RoomRules.PutPlayer | room/RoomManager.js:45 | `players.set(p.id, p)`: a player with that id is replaced where it sits, otherwise the new one goes last; the size grows only for a new id; every other seat stays |
| RoomRules.PutPlayerKeepsOthers | room/RoomManager.js:45 | setting one key leaves every other key where it was |
| RoomRules.FindFirst | room/RoomManager.js:45 | the first seat holding an id is the one a lookup reports |
| RoomRules.FindAfterSet | socket/SocketManager.js:142-145 | updating a player in place keeps every lookup where it was |
| RoomRules.PutPlayerDistinct | room/RoomManager.js:45 | keys stay unique under `set` |
| RoomRules.DeletePlayer | room/RoomManager.js:51 | `players.delete(id)` removes one seat for a present id and none for an absent one |
| RoomRules.DeletePlayerRemoves | room/RoomManager.js:51 | after `delete` the id is gone and every other id finds the same player |
| RoomRules.FindRoom | room/RoomManager.js:34-36 | `rooms.get(code)`: the first room with that code in table order, or none when no room has it |
| RoomRules.PutRoom | room/RoomManager.js:29 | `rooms.set(code, room)`: the room is found under its code; an existing entry is replaced in place, otherwise the room goes last; every other room stays; distinct codes stay distinct |
| RoomRules.FindRoomFirst | room/RoomManager.js:34-36 | the first room with a code is the one found |
| RoomRules.FindRoomAt | room/RoomManager.js:34-36 | with distinct codes each room is found at its own place |
| RoomRules.NewRoomWaits | room/RoomManager.js:9-96 | a new room is not full and cannot start; with one player it still cannot; with two different players it can |
| RoomRules.ActiveRooms | room/RoomManager.js:102 | no more rooms with players than rooms, nor than players |
| RoomRules.RoomsWith | room/RoomManager.js:103-104 | no more rooms with a status than rooms |
| RoomRules.Stats | room/RoomManager.js:99-113 | the total is the number of rooms; active, waiting and playing rooms each number at most that, and active rooms at most the players |
| RoomRules.StatusSplit | room/RoomManager.js:103-104 | every room is waiting or playing, so the two counts add up to the total |
| RoomRules.StatsBound | room/RoomManager.js:89-113 | with no room above six players, the players number at most six per room |
| RoomRules.StaleCodes | room/RoomManager.js:139-153 | at most one code is marked per room |
| RoomRules.DeleteRooms | room/RoomManager.js:156-158 | deleting codes never grows the table |
| RoomRules.DeleteNothing | room/RoomManager.js:156-158 | deleting no code leaves the table as it was |
| RoomRules.DeleteRoomsSnoc | room/RoomManager.js:156-158 | deleting one more code deletes it from what the earlier deletions left |
| RoomRules.Survivors | room/RoomManager.js:132-158 | the rooms kept are exactly the rooms of the table that are not stale |
| RoomRules.StaleCodesExact | room/RoomManager.js:144-152 | a code is marked exactly when its room has been idle more than 30 minutes, or is empty and idle more than 5 |
| RoomRules.StaleCodesFrom | room/RoomManager.js:139-153 | every marked code belongs to a stale room of the table |
| RoomRules.CleanupKeepsLive | room/RoomManager.js:156-158 | deleting the marked codes leaves exactly the rooms that are not stale |
| RoomRules.CleanupRemovesStale | room/RoomManager.js:132-158 | the sweep removes exactly the stale rooms: a room used in the last 5 minutes always stays, an occupied one until 30 minutes have passed, and nothing stale is left |
| RoomRules.Export | room/RoomManager.js:188-203 | the backup holds the players in table order and the game state as they are |
| RoomRules.FromEntries | room/RoomManager.js:211 | building the player map never adds an entry |
| RoomRules.FromEntriesDistinct | room/RoomManager.js:211 | the map built from any list holds each id once |
| RoomRules.FromEntriesUnique | room/RoomManager.js:211 | a list whose ids are already unique comes back unchanged |
| RoomRules.Import | room/RoomManager.js:207-219 | the restored room is unlocked, stamped with the current time, and keeps the backup's code |
| RoomRules.ImportExport | room/RoomManager.js:188-219 | restoring a backup gives the room back, unlocked and with fresh activity |
| RoomRules.ImportStable | room/RoomManager.js:188-219 | an imported room survives another backup and restore unchanged but for its activity time |
| Rooms.Ordered | room/RoomManager.js:100 | `Array.from(rooms.values())`: one value per code, in insertion order |
| Rooms.RemoveKey | room/RoomManager.js:40 | deleting a key from the insertion order keeps exactly the other keys |
| Rooms.OrderedRemove | room/RoomManager.js:40 | deleting a key from map and order deletes that code from the table |
| Rooms.OrderedCodes | room/RoomManager.js:29 | a table built from a keyed map has distinct codes, each at its key's place |
| Rooms.OrderedSet | room/RoomManager.js:29 | setting a present key replaces its room where it stands |
| Rooms.OrderedAppend | room/RoomManager.js:29 | setting a new key puts its room last |
| Rooms.RemoveKeyDistinct | room/RoomManager.js:40 | removing a key keeps the order free of duplicates |
| Rooms.RoomManager.TableCodes | room/RoomManager.js:3 | the table holds each code once, in insertion order |
| Rooms.RoomManager.SetRoom | room/RoomManager.js:29 | `rooms.set`: the map gains or replaces the entry, and the table changes as `PutRoom` says |
| Rooms.RoomManager.ReplaceRoom | room/RoomManager.js:29 | a present code keeps its place in the order |
| Rooms.RoomManager.AppendRoom | room/RoomManager.js:29 | a new code goes last in the order |
| Rooms.RoomManager.CreateRoom | room/RoomManager.js:9-31 | a fresh waiting room is stored under its code, replacing any room there, and returned |
| Rooms.RoomManager.DeleteRoom | room/RoomManager.js:39-41 | the code leaves the map and the table; an absent code changes nothing |
| Rooms.RoomManager.AddPlayer | room/RoomManager.js:44-47 | the player is set under its id and the room's activity stamped; the table stays consistent |
| Rooms.RoomManager.RemovePlayer | room/RoomManager.js:50-53 | the id is deleted and the room's activity stamped |
| Rooms.RoomManager.GetRoomStats | room/RoomManager.js:99-113 | the statistics of the table: the total is the number of rooms, of which waiting plus playing are all |
| Rooms.RoomManager.MarkStale | room/RoomManager.js:137-153 | the first loop marks exactly the stale codes, in table order, and changes nothing |
| Rooms.RoomManager.DeleteAll | room/RoomManager.js:156-158 | the second loop deletes each marked code from map and table |
| Rooms.RoomManager.DeleteNext | room/RoomManager.js:157 | one deletion of the second loop |
| Rooms.RoomManager.CleanupInactiveRooms | room/RoomManager.js:132-158 | the stale rooms leave the map, and the table becomes `Cleanup` of the old one (exactly the rooms that are not stale) |
| Rooms.RoomManager.ExportRoomData | room/RoomManager.js:188-203 | `null` exactly for an unknown code; otherwise the room's code and players |
| Rooms.RoomManager.ExportThenImport | room/RoomManager.js:188-223 | a backup restored gives the room back, unlocked and stamped with the current time |
| Rooms.RoomManager.ImportRoomData | room/RoomManager.js:207-219 | the restored room is stored under its code, and the table changes as `PutRoom` says |

## Left out

- Sending and receiving messages, `emit` and the `broadcast*` helpers
  (`socket/SocketManager.js:513-542`): these are I/O. A handler's result is
  its reply value and the state it leaves.
- The chat handler (`socket/SocketManager.js:327-346`): it only relays text
  and touches no game state.
- `cleanupEmptyRoom` and its 30-second `setTimeout`
  (`socket/SocketManager.js:545-554`): these are delayed I/O-level
  housekeeping.
- Room codes and player ids come in as parameters, because generating them
  is random. This covers `generateRoomCode`/`generatePlayerId`
  (`socket/SocketManager.js:557-564`) and the room manager's code choice.
- The cleanup interval (`startCleanupInterval`, `stopCleanupInterval`) and
  `cleanupAllRooms`: these are clock and process plumbing. One call of
  `cleanupInactiveRooms` is modelled, with the time as a parameter.
- `getRoom`, `getPlayer`, `getAllRooms`, `getRoomCount`, `getActiveRoomCount`,
  `updateRoomActivity`, `roomExists` and `getRoomInfo`: these are one-line
  accessors, used only through the members that are modelled.
- The `try`/`catch` around `importRoomData`: an import value in the model is
  already well formed, so nothing there can throw.
- Console logging: it is output only. Game log entries are modelled as
  entry kinds with their player names, not as the English sentences.
- The timers' delays: a timer is kept as a map entry with its length in
  seconds and its callback. Time is not advanced, and a timer fires only
  when `FireTimer` is called.
- `Math.random`, `Date.now()` and the shuffle: these come in as the `Env`
  parameter. The lemmas assume only that the shuffle permutes the deck.
- Turns.NextTurn: in the stack-overflow case it returns the room as it was on
  entry, with the throw. The log entries and the `turnIndex` updates made by
  the recursive calls before the overflow are not modelled.
- SocketRules.NoTurnIsEverTaken: payload ids are modelled as strings. A
  request whose `playerId` is `null` passes the `currentPlayer !== playerId`
  gate, since `currentPlayer` is always `null` there, and is then refused
  inside the engine, whose `players.get(null)` finds nobody. Its reply is
  "cannot perform this action", not "not your turn". Nothing is carried out
  in either case, but the model does not contain that request.
- Turns.NextTurnRaisesIff: its "the room is unchanged" is a fact of the model,
  not of the source. By the time the stack overflows, the source has moved
  `turnIndex` and `currentPlayer` and logged the skipped players.
- Engine.GameEngine.NextTurn: on the overflow it returns the raised flag
  before changing anything, so the room keeps its state from before the call.
  The source's partial updates to `turnIndex`, `currentPlayer` and the log are
  not modelled.
- View.WinnerRecord: the source's phase holds the winner's player object
  itself. The model finds it by id in the current players, which agrees while
  that player is seated. A winner whose entry has been deleted from `players`
  since is still sent by the source and is not by the model.
- Engine.GameEngine.ExecuteAction, Engine.GameEngine.ResolveChallenge,
  Engine.GameEngine.HandleChallenge, Engine.GameEngine.HandleCounter and
  Engine.GameEngine.HandleDiscard: each computes the new room as a value
  through its pure counterpart, and stores it in one step. It does not mutate
  the room field by field. The smaller steps these call (drawing,
  discarding, the sweep, dealing, the seat search) are modelled in place.
- Turns.DealSeat: when `drawCard` finds no card, the source puts `undefined`
  into the hand (`engine/GameEngine.js:158-161`) and the model deals one card
  fewer (as does `Engine.GameEngine.DealSeatInPlace`). Dealing at most six
  seats two cards each from the fifteen-card deck always finds a card, so
  this case is not reached.
- Actions.Swap: when `drawCard` finds no card, the source puts `undefined`
  into `tempCards` (`engine/GameEngine.js:391`), and the model leaves it out.
  Each seat ever holds at most two cards, a card leaves the deck and the pile
  only into a hand, and a card `forceEliminatePlayer` throws away leaves a
  seat that then holds none, so with at most six players the deck and the pile
  together keep at least 15 - 2 * 6 = 3 cards and both draws find one. This
  argument is not proved in the model.
- Rules.DiscardCard: the same `undefined` from `drawCard` cannot reach the
  hand here, because the card just discarded is on the pile
  (`Rules.DiscardHandSize` shows the hand refilled to two).
- Concurrency beyond the single-threaded event loop: the lock is a flag that
  is tested and set within one call.
