/**
 * The `startGame` reducer over the simple room state: it refuses to start a room with fewer
 * than two players by recording an error, and otherwise marks the room as started.
 */
module StartGameAction {

  /** A room: whether it has started, its players' names and the last error message. */
  datatype State = State(started: bool, players: seq<string>, error: string)

  /** The START_GAME action, addressed to a room by its code. */
  datatype ActionStartGame = ActionStartGame(code: string)

  const NotEnoughPlayers: string := "You need at least 2 players to start"

  /**
   * `startGame`: with fewer than two players only the error changes; otherwise only
   * `started` changes, and an earlier error is left in place.
   */
  function StartGame(state: State, action: ActionStartGame): (r: State)
    ensures r.players == state.players
    ensures r.started == (state.started || |state.players| >= 2)
    ensures r.error == if |state.players| < 2 then NotEnoughPlayers else state.error
  {
    if |state.players| < 2 then state.(error := NotEnoughPlayers)
    else state.(started := true)
  }

  /** Starting twice is the same as starting once. */
  lemma StartGameIdempotent(state: State, action: ActionStartGame)
    ensures StartGame(StartGame(state, action), action) == StartGame(state, action)
  {
  }

  /** The action's contents play no part in the result. */
  lemma StartGameIgnoresAction(state: State, a1: ActionStartGame, a2: ActionStartGame)
    ensures StartGame(state, a1) == StartGame(state, a2)
  {
  }
}
