# Tic-Tac-Toe engine: a Dafny model

This project models the game engine behind the multiplayer Tic-Tac-Toe
server in `backend/src/game.py` and proves what the engine promises:

- **Outcome detection** (`check_winner`). The eight winning triples are
  scanned in the source's order. The first uniform, non-empty triple
  decides the winner. A full board with no such triple is a draw. Any
  other board is still open.
- **The minimax opponent** (`minimax`, `find_best_move`). Both are
  imperative methods over a nine-cell `array`. Like the source, they write
  a marker, search, and restore the cell. Each is proved to compute a
  recursive reference definition (`Score`, `BestMove`) and to leave the
  board as it found it. The search terminates because every trial move
  fills one empty cell.
- **The game state and the session store** (`create_game_state`,
  `save_game_state`, `get_game_state`, `is_single_player_mode`). The Redis
  key space is a class holding a `map` from room code to state. A miss
  reads back a fresh initial state.
- **The move handler** (`on_make_move`) and **room creation**
  (`on_create_game`). `Move` is the reference definition of one move on a
  loaded state. `OnMakeMove` loads the room, lets the AI choose on its
  turn, applies the move to the board and saves. It is proved to compute
  `Move` and to keep every saved state consistent.

A state is *consistent* when three things hold:

- the recorded winner is `check_winner` of the board;
- `finished` holds exactly when there is an outcome;
- X is to move exactly when an odd number of cells is empty.

Every state the engine saves is consistent. From a fresh room, X is to move
exactly after an even number of accepted moves, and at most nine moves are
ever accepted.

The modules follow the parts of the engine:

| module | contents |
|---|---|
| `Wrappers` | `Option` and `Result` |
| `BoardLogic` | marks, cells, boards, the winning lines, `check_winner` |
| `AiSearch` | `minimax` and `find_best_move` |
| `Sessions` | game state, `create_game_state`, the session store |
| `MoveProcessor` | `on_make_move`, `on_create_game`, runs of moves |

Python semantics the model keeps:

- A tile index in -9..-1 names the same cell as index +9, as list
  indexing does.
- Any index outside -9..8 raises an IndexError. `Move` returns
  `Rejected(TileOutOfRange)` and the store is not touched.
- On the AI's turn, a full board makes `find_best_move` return `None`.
  `board[None]` then raises a TypeError. `Move` returns `Rejected(NoAiMove)`.
- The `-inf`/`+inf` starting scores of the searches are the integers -2
  and +2. Every real score lies in -1..1, so the comparisons come out the
  same.
- `declare_winner`, the "Game over" notice and the `game_state_update`
  broadcast become the recorded events `DeclareWinner`, `GameOver` and
  `StateUpdate`.
- `create_game_state()` never records an O player, so
  `is_single_player_mode` holds in every room `on_create_game` opens. In
  such a room the AI makes every O move (`CreatedRoomAiPlaysO`).

## Model

| member | source | states |
|---|---|---|
| BoardLogic.CheckWinnerSpec | backend/src/game.py:155-165 | The outcome is a win exactly when some winning triple is uniform. A win carries the marker of the first uniform triple in list order. It is a draw exactly when no triple is uniform and no cell is empty, and open exactly when no triple is uniform and some cell is empty. |
| BoardLogic.ScanFromSpec | backend/src/game.py:160-165 | The loop over the triples from the k-th on gives the first uniform triple's marker; once no triple is left, the result is a draw on a full board and open otherwise. |
| BoardLogic.FirstLineDecides | backend/src/game.py:160-162 | If triple k is the first uniform one, the winner is triple k's marker, even when a later triple is uniform with the other marker. |
| BoardLogic.Other | backend/src/game.py:109 | The turn always passes to the other marker. |
| BoardLogic.EmptyCount | backend/src/game.py:163 | The count of empty cells is zero exactly when `""` is not on the board. |
| BoardLogic.EmptyCountFill | backend/src/game.py:207-209 | Writing a marker into an empty cell removes exactly one empty cell. This is the measure that makes the search terminate. |
| BoardLogic.EmptyBoardCount | backend/src/game.py:169 | The initial board has nine empty cells and is still open. |
| AiSearch.BestBounds | backend/src/game.py:204-221 | The minimax loop from cell i on never does worse than its running best or than any empty cell it visits. It ends at its running best or at the value of one of those cells. |
| AiSearch.ScoreRange | backend/src/game.py:196-221 | Every minimax score is -1, 0 or +1. |
| AiSearch.ChildScoresInRange | backend/src/game.py:206-221 | Every move tried from a board scores -1, 0 or +1. |
| AiSearch.ScoreIsMinimax | backend/src/game.py:196-221 | A board won by the AI scores +1, one won by the player -1, and a draw 0. An open board scores the value of one of its empty cells. That value is the maximum over all empty cells when the AI moves and the minimum when the player moves. |
| AiSearch.Minimax | backend/src/game.py:185-221 | The in-place search returns the minimax score of the board it was given and restores every trial write, so the board is unchanged on return. |
| AiSearch.BestMoveFromScanned | backend/src/game.py:226-233 | The loop of `find_best_move` keeps its accumulators equal to the lowest best-scoring empty cell seen so far and that cell's score, or to None and -inf when no cell was empty. |
| AiSearch.BestMoveIsLowestArgmax | backend/src/game.py:223-234 | The move is None exactly on a full board. Otherwise it is an empty cell whose O score is maximal, and it is strictly better than every lower empty cell, because the comparison is a strict `>`. |
| AiSearch.FindBestMove | backend/src/game.py:223-234 | The in-place move search returns `BestMove` of the board it was given and leaves the board unchanged. |
| AiSearch.FindBestMoveAsWritten | backend/src/game.py:229 | As written, the search raises a TypeError exactly when the board has an empty cell. |
| AiSearch.AsWrittenFailsWhereBestMoveExists | backend/src/game.py:226-229 | The as-written search raises on exactly the boards where the corrected one has a move to offer. |
| Sessions.CreateGameState | backend/src/game.py:167-173 | The initial state has an empty board, X to move, no winner and is not finished. No O player is recorded. In single-player mode the X seat is the session's user; otherwise no X player is recorded. |
| Sessions.CreatedStateConsistent | backend/src/game.py:169-173 | An initial state is consistent and in single-player mode. |
| Sessions.Stored | backend/src/game.py:179-181 | Reading a room gives its saved state, or the default initial state when nothing is saved. |
| Sessions.StoredAfterSave | backend/src/game.py:176-181 | Reading a room after saving a state under it gives that state. Saving leaves every other room's reading as it was. |
| Sessions.SessionStore.Save | backend/src/game.py:176-177 | Saving overwrites exactly the entry for the room. A consistent state keeps the whole store consistent. |
| Sessions.SessionStore.Get | backend/src/game.py:179-181 | Get returns the saved state on a hit and the default initial state on a miss. In a consistent store, the state it returns is consistent. |
| Sessions.SessionStore.IsSinglePlayerMode | backend/src/game.py:236-238 | A room is in single-player mode exactly when it has no saved state or its saved state records no O player. |
| MoveProcessor.Place | backend/src/game.py:107-121 | The accepted branch marks exactly the chosen cell with the mover's marker and passes the turn. It keeps both seats. It sets `finished` and `winner` exactly when the new board has an outcome. It declares the actor winner exactly on a win and announces game over exactly on a win or a draw. The broadcast of the new state comes last. |
| MoveProcessor.Move | backend/src/game.py:100-121 | A move is accepted exactly when the chosen tile is in range, names an empty cell, and the game is open. A finished game or an occupied cell gives a rejection. The AI finding no cell gives `NoAiMove`, and an index outside the list gives `TileOutOfRange`. An accepted move changes exactly one cell, from empty to the previous turn, and flips the turn. The outcome and the events are settled as in `Place`. |
| MoveProcessor.PlaceKeepsConsistent | backend/src/game.py:107-114 | Marking an empty cell of an open, consistent game gives a consistent state with one empty cell fewer. |
| MoveProcessor.MoveKeepsConsistent | backend/src/game.py:107-114 | An accepted move keeps a consistent state consistent and fills one cell. |
| MoveProcessor.AiMoveAccepted | backend/src/game.py:101-108 | On the AI's turn in an open, consistent game, the client's tile is ignored. The AI's move is accepted and writes O into the lowest cell of maximal score. A declared winner, if any, is attributed to no player. |
| MoveProcessor.RunKeepsConsistent | backend/src/game.py:107-120 | Any sequence of requests keeps a consistent state consistent. Each accepted move fills one cell. The seats never change. |
| MoveProcessor.TurnParity | backend/src/game.py:107-109 | From a freshly created room, X is to move exactly after an even number of accepted moves. At most nine moves are ever accepted, and the room stays in single-player mode. |
| MoveProcessor.CreatedRoomAiPlaysO | backend/src/game.py:236-238 | In every state a room opened by `on_create_game` reaches, O to move means it is the AI's turn, after an odd number of moves. |
| MoveProcessor.OnMakeMove | backend/src/game.py:94-121 | The handler returns `Move` of the room's saved state. An accepted move saves the new state under the room and nothing else. A rejected one leaves the store untouched. A consistent store stays consistent. |
| MoveProcessor.ChooseTile | backend/src/game.py:100-104 | On the AI's turn the AI's choice replaces the client's tile and the mover is no player. Otherwise the client's tile and the session's user stand. The board is left as it was. |
| MoveProcessor.ResolveMove | backend/src/game.py:106-121 | Once the tile is chosen, the handler rejects it or applies and saves it, as the reference definition says. A rejection leaves the store untouched. |
| MoveProcessor.ApplyMove | backend/src/game.py:107-121 | The accepted branch computes `Place` on the array board and saves its state under the room. |
| MoveProcessor.OnCreateGame | backend/src/game.py:27 | Room creation saves the initial state under the new room. That room is in single-player mode, and a consistent store stays consistent. |
| MoveProcessor.OpeningMoveScenario | backend/src/game.py:107-109 | X opening on the centre of a new room puts X at cell 4 and passes the turn to O, with the game open. |
| MoveProcessor.WinningMoveScenario | backend/src/game.py:110-121 | X completing the top row wins and finishes the game. The events are: X's player declared winner, game over, state update. |
| MoveProcessor.DrawScenario | backend/src/game.py:110-121 | X filling the last cell without a line draws and finishes the game. The events are game over and the state update, with no winner declared. |

## Left out

- Transport is not modelled: `emit`, `send`, `join_room`, `request.sid`. Instead, the events an accepted move sends are part of its result.
- The web session is a parameter. `session.get('user_id')` and
  `session["user_id"]` become the `playerId` and `sessionUser` arguments.
- Redis and JSON serialisation are not modelled. The store is a map, and a
  saved state reads back unchanged.
- The database calls are not modelled: `user.create_game`, the game-code
  lookup, `game.declare_winner`. Their code is not shown. Declaring a
  winner is the recorded event `DeclareWinner`.
- `data.get("difficulty", 1)` is not modelled. The value goes only to the
  database and the search does not read it.
- `on_join_game` and `send_message` are not modelled. They are database and
  transport glue with no game logic.
- A request whose `game_code` or `tile_number` key is missing is not
  modelled (a KeyError). Neither is a `tile_number` that is not an integer
  (a TypeError). Tiles are integers in the model.
- Concurrent requests on one room are not modelled. The source takes no
  lock, and the model handles one request at a time.
- AiSearch.Minimax: the unused `depth` parameter is dropped.
- AiSearch.ScoreRange: proved only for two different markers. With equal
  markers, a board won by the other marker falls through to the search
  loop, and the source can then return its `-inf`/`+inf` start values.
- AiSearch.BestMoveIsLowestArgmax: states that the chosen cell maximises
  the one-ply minimax score. It does not prove that the AI never loses a
  game; that would mean evaluating the whole game tree from the empty
  board.
- `backend/src/models.py`, `backend/src/routes.py`, the configuration and
  start-up files and the React frontend are not part of this model.

## Findings

| source | as written | input that shows it | evidently intended | confidence | as-written member | corrected member |
|---|---|---|---|---|---|---|
| backend/src/game.py:229 | `find_best_move` calls `minimax(board, 0, False)`, leaving out the two required marker arguments, so Python raises a TypeError at the first empty cell | any board with an empty cell on the AI's turn, e.g. after X opens on cell 4 in a new room | `minimax(board, 0, False, "O", "X")`: the AI has just written O, and X replies | high (not executed) | AiSearch.FindBestMoveAsWritten | AiSearch.FindBestMove |
