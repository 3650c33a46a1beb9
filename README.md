# Room engine of the cooperative "100" card game, in Dafny

This project models the server core of a cooperative card game in which up to ten
players share a room, identified by a four-letter code, and play the cards 1..99 onto
four piles. The core is a small deterministic state machine (written in the original
with a state-machine library) over a game context:

- the active seat, a count of cards played, the draw pile, the players (name, hand, whether
  they have drawn their first hand) and four piles A–D;
- the resting states `lobby_not_ready`, `lobby_ready`, `lobby_full`, `play_required`,
  `play_optional`, `finished_win` and `finished_loss`, and the transient states
  `player_joined`, `next_player` and `card_played`, which are left through eventless
  ("settle") transitions as soon as they are entered;
- the events PLAYER_JOIN, START_GAME, PLAY_CARD, END_TURN and END_GAME, each carrying the
  sender's name.

Modules:

- `Wrappers` (`wrappers.dfy`): `Option` and `Result`.
- `Game` (`game.dfy`): the data model; the five `assign` actions (`AddPlayer`, `DrawCards`,
  `IncPlayer`, `IncCardsPlayed`, `PlayCard`) as pure functions; the guards of the eventless
  transitions; `EnterNextPlayer`, the recursion through `next_player` that deals the first
  hands; `Step`, one event followed by the settle transitions in their listed order; `Run`;
  the invariant `Inv` of every resting state; and the per-player view
  `GenerateGameStateUpdate`.
- `GameProperties` (`game_properties.dfy`): lemmas about `Step`: admission, dealing,
  ending a turn, playing a card and the settle order after it, finality, unlisted events,
  and conservation of the cards.
- `Rooms` (`rooms.dfy`): `GenerateID` and `CreateRoomCode` as loops, and the `Registry`
  class holding the map from room code to the state of that room's machine.
- `StartGameAction` (`start_game.dfy`): the `startGame` reducer over the simple room state.

The model follows the code, including what the code does not do. The game's design
describes a shuffled deck, rejection of plays by anyone but the active player, rejection
of unknown cards and of duplicate names, per-player error messages, a play counter reset
at the start of each turn, and loss detection. The code has none of these, and neither
does the model:

- the draw pile is 1..99 in ascending order;
- PLAY_CARD is accepted from any sender and for any card, and removes the card from the hand
  of every player with the sender's name;
- `cardsPlayed` only grows, so after the first turn a single play makes play optional;
- `finished_loss` is never entered and END_GAME is listed by no state;
- an event the current state does not list changes nothing; there is no error path.

`Step` requires `Inv`, the invariant of the states the machine can rest in, and keeps it.
Every lobby holds a fresh context whose phase matches the head count (at most ten). Every
started game has 2..10 players, a valid active seat, every player dealt, and no hand above
six cards. This is where the termination argument for `next_player` lives: while first
hands are dealt, exactly the seats before the active one have drawn, and each pass deals to
one more waiting player.

## Model

| member | source | states |
|---|---|---|
| `Game.Without` | server/src/game.ts:100 | the hand with every copy of the card removed: same multiset with that card's count set to zero, nothing else lost, never longer; a hand without the card is returned as it is |
| `Game.WithoutConcat` | server/src/game.ts:100 | filtering a hand is filtering its parts and joining them in order, so together with the contract of `Game.Without` the kept cards keep the hand's order |
| `Game.IncCardsPlayed` | server/src/game.ts:91-93 | the play count goes up by exactly one and nothing else in the context changes |
| `Game.DiscardFromNamed` | server/src/game.ts:97-101 | seats, names and drawn flags are kept; players with another name are untouched; each player with the sender's name loses the card from the hand |
| `Game.PlayCard` | server/src/game.ts:95-102 | the card goes on top of the named pile, the other piles, the draw pile, the turn and the count are unchanged, and the card leaves the hands of the players with the sender's name |
| `Game.DrawCards` | server/src/game.ts:104-120 | the drawn cards come off the top of the draw pile in order (old hand ++ drawn, drawn ++ new pile = old pile); with at most six cards in hand exactly min(6 - hand, pile) are drawn; the player is marked as drawn; every other player is unchanged |
| `Game.IncPlayer` | server/src/game.ts:122-124 | the turn passes to the next seat, wrapping to seat 0 after the last, and stays a valid seat |
| `Game.AddPlayer` | server/src/game.ts:126-131 | exactly one player with an empty hand and not yet drawn is appended; earlier players and the rest of the context are unchanged |
| `Game.JoinedPhase` | server/src/game.ts:136-148 | after a join the lobby is full iff there are at least 10 players, ready iff 2..9, not ready iff fewer than 2 |
| `Game.Undrawn` | server/src/game.ts:182 | the count of players still to draw is zero exactly when every player has drawn |
| `Game.UndrawnOfPrefix` | server/src/game.ts:176-189 | when exactly the first k seats have drawn, n - k players are still waiting |
| `Game.NextPlayerRound` | server/src/game.ts:176-189 | one pass through `next_player` keeps the dealing invariant and deals to one more waiting player, so the re-entry terminates |
| `Game.EnterNextPlayer` | server/src/game.ts:176-189 | re-entering `next_player` until everyone has drawn ends in `play_required` with everyone drawn, a valid active seat, names, count and piles unchanged, and hands still within the limit |
| `Game.HandTotal` | server/src/game.ts:196-199 | the number of cards in all hands is zero exactly when every hand is empty |
| `Game.CardPlayedPhase` | server/src/game.ts:190-212 | after a play: win iff the draw pile and every hand are empty; otherwise optional iff plays ≥ (2 if the draw pile has cards, else 1); otherwise required |
| `Game.InitialState` | server/src/game.ts:227-236 | a new room rests in `lobby_not_ready` with no players and satisfies the invariant |
| `Game.JoinKeepsInv` | server/src/game.ts:126-162 | a join accepted by a lobby that is not full leaves a fresh lobby of at most 10 empty-handed, undealt players in the phase its new count names |
| `Game.PlayKeepsInPlay` | server/src/game.ts:91-102 | a play keeps the head count, the active seat, everyone's drawn flag and every hand within six cards |
| `Game.Step` | server/src/game.ts:133-226 | every event from a resting state leads to a resting state that keeps the invariant (at most 10 players, valid active seat once started, hands ≤ 6) |
| `Game.Run` | server/src/game.ts:133-226 | any sequence of events keeps the invariant; the player count never exceeds 10 |
| `Game.FindPlayer` | server/src/game.ts:277 | finds the first seat with the name, or none exactly when no player has it |
| `Game.GenerateGameStateUpdate` | server/src/game.ts:273-284 | null iff no player has the name; otherwise all names in seat order and the hand of the first player with that name, and no other hand |
| `GameProperties.JoinAppendsPlayer` | server/src/game.ts:126-162 | PLAYER_JOIN in a lobby that is not full appends one empty-handed player last, changes nothing else, and picks the lobby phase from the new count |
| `GameProperties.FullLobbyRefusesJoin` | server/src/game.ts:163-167 | a full lobby has exactly 10 players and PLAYER_JOIN leaves it unchanged |
| `GameProperties.DealFrom` | server/src/game.ts:176-189 | from the k-th pass of dealing, the remaining passes give each later seat i the cards 6i+1..6i+6 and end in `play_required` with seat 0 active |
| `GameProperties.StartGameDeals` | server/src/game.ts:157-189 | START_GAME in a ready or full lobby of n players ends in `play_required` with seat 0 active, everyone drawn, seat i holding 6i+1..6i+6, the pile starting at 6n+1, piles empty and count 0 |
| `GameProperties.EndTurnRefillsAndAdvances` | server/src/game.ts:220-224 | END_TURN in `play_optional` refills the old active player's hand from the top of the pile to min(6, hand + pile), passes the turn to (a + 1) mod n, leaves the other players and the count unchanged, and settles in `play_required` |
| `GameProperties.PlayCardEffect` | server/src/game.ts:91-102 | PLAY_CARD in a play phase adds exactly one to the count, appends the card to the named pile only, leaves draw pile and turn alone, and changes only the hands of players with the sender's name |
| `GameProperties.SettleAfterPlay` | server/src/game.ts:190-212 | after PLAY_CARD: `finished_win` iff draw pile and all hands are empty; else `play_optional` iff enough plays; else `play_required` |
| `GameProperties.CardsPlayedOnlyCountsPlays` | server/src/game.ts:91-93 | the count grows by one on each accepted play and is never changed, nor reset, by anything else |
| `GameProperties.FinishedIsFinal` | server/src/game.ts:168-173 | no event changes a finished game |
| `GameProperties.NoLoss` | server/src/game.ts:168-225 | no event leads into `finished_loss`: no listed target or guard of the table names it |
| `GameProperties.UnlistedEventsIgnored` | server/src/game.ts:152-225 | END_GAME anywhere, plays and END_TURN in a lobby, START_GAME before two players, joins when full or started, END_TURN in `play_required` leave phase and context unchanged |
| `GameProperties.RangeCounts` | server/src/game.ts:231 | the new draw pile holds each card 1..99 exactly once |
| `GameProperties.LobbyCardsPartitioned` | server/src/game.ts:227-234 | in every lobby all 99 cards are in the draw pile, each once |
| `GameProperties.DiscardCounted` | server/src/game.ts:97-101 | when only players with the sender's name hold the card, the hands together lose exactly all copies of it |
| `GameProperties.DrawCardsConservesCards` | server/src/game.ts:104-120 | drawing moves cards from the draw pile to a hand, losing and creating none |
| `GameProperties.NextPlayerConservesCards` | server/src/game.ts:176-189 | the whole pass through `next_player` loses and creates no card |
| `GameProperties.PlayCardConservesCards` | server/src/game.ts:95-102 | playing a card held by a player with the sender's name, present once, moves it from that hand to the pile and keeps the multiset of all cards |
| `GameProperties.PlayConservesCards` | server/src/game.ts:213 | entering `card_played` with a held card keeps every card in exactly one place |
| `GameProperties.StepConservesCards` | server/src/game.ts:133-226 | every transition keeps each card 1..99 in exactly one of draw pile, hands and piles, provided a play names a card some player of that name holds |
| `Rooms.CharactersAreUnambiguous` | server/src/game.ts:76 | the alphabet has 23 capital letters and excludes I, L and O |
| `Rooms.GenerateID` | server/src/game.ts:74-82 | the id has the requested length and its i-th character is the alphabet letter the i-th draw picks |
| `Rooms.Registry.constructor` | server/src/game.ts:72 | the registry starts with no rooms |
| `Rooms.Registry.CreateRoomCode` | server/src/game.ts:84-88 | returns a 4-letter code over the alphabet that is not a live room's code: the first free one among the draws, all earlier ones being taken |
| `Rooms.Registry.CreateGame` | server/src/game.ts:243-263 | registers a new room in the initial state under a code that was not live, leaving every other room as it was, so codes of live rooms stay distinct |
| `Rooms.Registry.GetGame` | server/src/game.ts:265-269 | returns the room exactly when the code is registered, else the error "Could not get game <code>" |
| `Rooms.Registry.Transition` | server/src/game.ts:257-259 | an event sent to a registered room replaces that room's state by `Step` of it; an unknown code is an error and changes nothing |
| `StartGameAction.StartGame` | server/src/actions/startGame.ts:7-11 | players are never changed; `started` becomes true iff there are at least 2 players (or it already was); with fewer than 2 the error becomes "You need at least 2 players to start", otherwise the old error is kept |
| `StartGameAction.StartGameIdempotent` | server/src/actions/startGame.ts:7-11 | applying the reducer twice gives the same state as once |
| `StartGameAction.StartGameIgnoresAction` | server/src/actions/startGame.ts:7-11 | the result depends only on the state, not on the action |

## Left out

- The state-machine library's runtime (interpreting the machine, starting it, sending
  events, transition subscriptions) is replaced by `Step`; the push of a fresh view to each
  subscriber after every transition, and its console logging, are not modelled. The view
  function itself is.
- `Math.random` is not modelled: the caller supplies the draws, each an index into the
  alphabet. `Rooms.Registry.CreateRoomCode` requires that some supplied candidate is free,
  because the original keeps drawing until one is and would not stop in a registry holding
  all 23^4 codes.
- Numbers are unbounded integers. A card is an integer: the event type admits any number
  and nothing checks it, so a non-integer card, which would behave like a card nobody holds,
  is not modelled. `cardsPlayed` has no upper bound, since the same card can be played
  again and again.
- `DrawCards` reproduces `Array.prototype.slice` for a negative count (a hand over six cards),
  but `Inv` shows that no reachable hand exceeds six, so only the non-negative case is used.
- A pile outside A–D is excluded by the event type, not checked at run time (`playCard`
  would throw); the model admits only the four piles.
- The express/socket.io bootstrap, the browser client, the placeholder reducer and the type
  declaration files hold no behaviour of the core; the view type there declares `actions`,
  `piles` and `started`, which the code never fills, so the model's view has only the names
  and the hand.
- Rooms are never removed: the original never deletes an entry from its registry.
