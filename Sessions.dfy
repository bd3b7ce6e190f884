/**
 * The per-room game state and the session store that holds it
 * (`create_game_state`, `save_game_state`, `get_game_state`,
 * `is_single_player_mode`).
 *
 * The store is the Redis key space seen as a map from room code to the
 * state last saved under it; serialisation to JSON is not modelled.
 */
module Sessions {
  import opened Wrappers
  import opened BoardLogic

  /** A user id as kept in the web session. */
  type PlayerId = int

  /**
   * The state dictionary: board, turn, winner, finished, and the two
   * optional player ids. A key the dictionary lacks reads as None, as
   * `state.get(...)` does in the source.
   */
  datatype GameState = GameState(
    board: Board,
    turn: Mark,
    winner: Outcome,
    finished: bool,
    playerXId: Option<PlayerId>,
    playerOId: Option<PlayerId>)

  /**
   * `create_game_state(single_player_mode)`: an empty board, X to move, no
   * winner. In single-player mode the X seat takes the session's user and
   * the O seat is left None for the AI; otherwise neither key is written.
   */
  function CreateGameState(singlePlayerMode: bool, sessionUser: Option<PlayerId>): (s: GameState)
    ensures s.board == EmptyBoard && s.turn == X && s.winner == Ongoing && !s.finished
    ensures s.playerOId == None
    ensures singlePlayerMode ==> s.playerXId == sessionUser
    ensures !singlePlayerMode ==> s.playerXId == None
  {
    var s := GameState(EmptyBoard, X, Ongoing, false, None, None);
    if singlePlayerMode then s.(playerXId := sessionUser) else s
  }

  /** The state `get_game_state` reads back: the saved one, or a fresh `create_game_state()`. */
  function Stored(states: map<string, GameState>, code: string): (s: GameState)
    ensures code in states ==> s == states[code]
    ensures code !in states ==> s == CreateGameState(false, None)
  {
    if code in states then states[code] else CreateGameState(false, None)
  }

  /** `is_single_player_mode` on a state: no O player id is recorded. */
  predicate SinglePlayer(s: GameState) {
    s.playerOId.None?
  }

  /**
   * What every state the engine saves satisfies: the recorded winner is
   * the board's outcome, `finished` says the game has an outcome, and X is
   * to move exactly when an odd number of cells is still empty (an even
   * number of moves has been made).
   */
  predicate Consistent(s: GameState) {
    && s.winner == CheckWinner(s.board)
    && (s.finished <==> s.winner != Ongoing)
    && (s.turn == X <==> EmptyCount(s.board) % 2 == 1)
  }

  /** A freshly created state is consistent and in single-player mode. */
  lemma CreatedStateConsistent(singlePlayerMode: bool, sessionUser: Option<PlayerId>)
    ensures Consistent(CreateGameState(singlePlayerMode, sessionUser))
    ensures SinglePlayer(CreateGameState(singlePlayerMode, sessionUser))
  {
    EmptyBoardCount();
  }

  /** `get` after `put` on the same code returns what was put; other codes are unaffected. */
  lemma StoredAfterSave(states: map<string, GameState>, code: string, s: GameState, other: string)
    ensures Stored(states[code := s], code) == s
    ensures other != code ==> Stored(states[code := s], other) == Stored(states, other)
  {
  }

  /** The session store: room code to saved state. */
  class SessionStore {
    var states: map<string, GameState>

    /** Every saved state is one the engine could have produced. */
    ghost predicate Valid()
      reads this
    {
      forall code :: code in states ==> Consistent(states[code])
    }

    constructor ()
      ensures states == map[] && Valid()
    {
      states := map[];
    }

    /** `save_game_state`: overwrite the state saved under `code`. */
    method Save(code: string, state: GameState)
      modifies this
      ensures states == old(states)[code := state]
      ensures old(Valid()) && Consistent(state) ==> Valid()
    {
      states := states[code := state];
    }

    /** `get_game_state`: the saved state, or the initial state on a miss. */
    method Get(code: string) returns (state: GameState)
      ensures code in states ==> state == states[code]
      ensures code !in states ==> state == CreateGameState(false, None)
      ensures state == Stored(states, code)
      ensures Valid() ==> Consistent(state)
    {
      if code in states {
        state := states[code];
      } else {
        state := CreateGameState(false, None);
        CreatedStateConsistent(false, None);
      }
    }

    /** `is_single_player_mode(room)`: re-reads the room and checks its O seat. */
    method IsSinglePlayerMode(code: string) returns (single: bool)
      ensures single <==> code !in states || states[code].playerOId.None?
      ensures single == SinglePlayer(Stored(states, code))
    {
      var state := Get(code);
      single := state.playerOId.None?;
    }
  }
}
