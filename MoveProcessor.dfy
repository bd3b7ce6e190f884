/**
 * The move handler (`on_make_move`) and room creation (`on_create_game`),
 * stripped of transport: the database's `declare_winner`, the "Game over"
 * notice and the `game_state_update` broadcast become recorded events.
 *
 * `Move` is the reference definition of one move on a loaded state;
 * `OnMakeMove` loads, mutates and saves as the source does and is proved
 * to compute it.
 */
module MoveProcessor {
  import opened Wrappers
  import opened BoardLogic
  import opened AiSearch
  import opened Sessions

  /** What a handled move sends out. */
  datatype Event =
    | DeclareWinner(playerId: Option<PlayerId>)  // `game.declare_winner(player_id)`; None is the AI
    | GameOver(winner: Outcome)                  // the "Game over! Winner: ..." notice
    | StateUpdate(state: GameState)              // the `game_state_update` broadcast

  /**
   * Why a move changed nothing: the guard failed (occupied cell or
   * finished game), the tile indexes outside the nine-element list
   * (IndexError), or the AI had no cell to offer (`board[None]`, a TypeError).
   */
  datatype Rejection = Ignored | TileOutOfRange | NoAiMove

  datatype MoveResult =
    | Accepted(state: GameState, events: seq<Event>)
    | Rejected(reason: Rejection)

  /** It is the AI's turn: O is to move and the room has no O player. */
  predicate AiTurn(s: GameState) {
    s.turn == O && SinglePlayer(s)
  }

  /** The tile actually played: the AI's choice on its turn, else the client's. */
  function ChosenTile(s: GameState, tile: int): Option<int> {
    if AiTurn(s) then BestMove(s.board) else Some(tile)
  }

  /** The player the move is attributed to: None for the AI. */
  function Actor(s: GameState, playerId: Option<PlayerId>): Option<PlayerId> {
    if AiTurn(s) then None else playerId
  }

  /** Python indexing of a nine-element list accepts -9..8. */
  predicate InRange(t: int) {
    -9 <= t < 9
  }

  /** The cell a Python index names: negative indices count from the end. */
  function CellIndex(t: int): Index
    requires InRange(t)
  {
    if t < 0 then t + 9 else t
  }

  /** A move is applied: the tile is in range, its cell is empty and the game is open. */
  predicate Applies(s: GameState, tile: int) {
    var t := ChosenTile(s, tile);
    t.Some? && InRange(t.value) && s.board[CellIndex(t.value)] == Empty && !s.finished
  }

  /** The accepted branch: mark the cell, flip the turn, and settle the outcome. */
  function Place(s: GameState, ix: Index, actor: Option<PlayerId>): (r: MoveResult)
    ensures r.Accepted?
    ensures r.state.board == s.board[ix := Filled(s.turn)]
    ensures r.state.turn == Other(s.turn)
    ensures r.state.playerXId == s.playerXId && r.state.playerOId == s.playerOId
    ensures r.state.finished <==> s.finished || CheckWinner(r.state.board) != Ongoing
    ensures r.state.winner == if CheckWinner(r.state.board) != Ongoing then CheckWinner(r.state.board) else s.winner
    ensures DeclareWinner(actor) in r.events <==> CheckWinner(r.state.board).Win?
    ensures forall e :: e in r.events && e.DeclareWinner? ==> e.playerId == actor
    ensures GameOver(CheckWinner(r.state.board)) in r.events <==> CheckWinner(r.state.board) != Ongoing
    ensures |r.events| > 0 && r.events[|r.events| - 1] == StateUpdate(r.state)
  {
    var board := s.board[ix := Filled(s.turn)];
    var winner := CheckWinner(board);
    var moved := s.(board := board, turn := Other(s.turn));
    var next := if winner != Ongoing then moved.(winner := winner, finished := true) else moved;
    Accepted(next,
      if winner.Win? then [DeclareWinner(actor), GameOver(winner), StateUpdate(next)]
      else if winner == Draw then [GameOver(winner), StateUpdate(next)]
      else [StateUpdate(next)])
  }

  /** One `make_move` event on the loaded state `s`. */
  function Move(s: GameState, tile: int, playerId: Option<PlayerId>): (r: MoveResult)
    ensures r.Accepted? <==> Applies(s, tile)
    ensures s.finished ==> r.Rejected?
    ensures ChosenTile(s, tile).None? ==> r == Rejected(NoAiMove)
    ensures ChosenTile(s, tile).Some? && !InRange(ChosenTile(s, tile).value) ==> r == Rejected(TileOutOfRange)
    ensures r.Accepted? ==>
      var ix := CellIndex(ChosenTile(s, tile).value);
      && s.board[ix] == Empty
      && r.state.board[ix] == Filled(s.turn)
      && (forall j :: 0 <= j < 9 && j != ix ==> r.state.board[j] == s.board[j])
    ensures r.Accepted? ==>
      && r.state.turn == Other(s.turn)
      && r.state.playerXId == s.playerXId
      && r.state.playerOId == s.playerOId
    ensures r.Accepted? ==>
      && (r.state.finished <==> CheckWinner(r.state.board) != Ongoing)
      && (r.state.finished ==> r.state.winner == CheckWinner(r.state.board))
      && (!r.state.finished ==> r.state.winner == s.winner)
    ensures r.Accepted? ==>
      && (DeclareWinner(Actor(s, playerId)) in r.events <==> CheckWinner(r.state.board).Win?)
      && (forall e :: e in r.events && e.DeclareWinner? ==> e.playerId == Actor(s, playerId))
      && (GameOver(r.state.winner) in r.events <==> r.state.finished)
      && |r.events| > 0 && r.events[|r.events| - 1] == StateUpdate(r.state)
  {
    Resolve(s, ChosenTile(s, tile), Actor(s, playerId))
  }

  /** The rest of a move once the tile and the player it is attributed to are known. */
  function Resolve(s: GameState, t: Option<int>, actor: Option<PlayerId>): MoveResult {
    if t.None? then Rejected(NoAiMove)
    else if !InRange(t.value) then Rejected(TileOutOfRange)
    else if s.board[CellIndex(t.value)] == Empty && !s.finished then
      Place(s, CellIndex(t.value), actor)
    else Rejected(Ignored)
  }

  /** Placing a marker on an empty cell of an open consistent game keeps it consistent and uses up that cell. */
  lemma PlaceKeepsConsistent(s: GameState, ix: Index, actor: Option<PlayerId>)
    requires Consistent(s) && s.board[ix] == Empty && !s.finished
    ensures Consistent(Place(s, ix, actor).state)
    ensures EmptyCount(Place(s, ix, actor).state.board) == EmptyCount(s.board) - 1
  {
    var n := Place(s, ix, actor).state;
    EmptyCountFill(s.board, ix, s.turn);
    assert s.winner == Ongoing;
    FlipParity(s.turn, EmptyCount(s.board), n.turn, EmptyCount(n.board));
  }

  /** Flipping the turn while using up one cell keeps "X to move iff an odd number of cells is empty". */
  lemma FlipParity(turn: Mark, empties: nat, next: Mark, left: nat)
    requires empties > 0 && (turn == X <==> empties % 2 == 1)
    requires next == Other(turn) && left == empties - 1
    ensures next == X <==> left % 2 == 1
  {
  }

  /** An accepted move keeps a state consistent and uses up one empty cell. */
  lemma MoveKeepsConsistent(s: GameState, tile: int, playerId: Option<PlayerId>)
    requires Consistent(s)
    ensures Move(s, tile, playerId).Accepted? ==>
      && Consistent(Move(s, tile, playerId).state)
      && EmptyCount(Move(s, tile, playerId).state.board) == EmptyCount(s.board) - 1
  {
    var r := Move(s, tile, playerId);
    if r.Accepted? {
      var ix := CellIndex(ChosenTile(s, tile).value);
      assert r == Place(s, ix, Actor(s, playerId));
      PlaceKeepsConsistent(s, ix, Actor(s, playerId));
    }
  }

  /**
   * On the AI's turn in an open consistent game the client's tile is
   * ignored: the AI's move is always accepted, it is the lowest empty cell
   * of maximal score, and it is attributed to no player.
   */
  lemma AiMoveAccepted(s: GameState, tile: int, playerId: Option<PlayerId>)
    requires Consistent(s) && AiTurn(s) && !s.finished
    ensures var r := Move(s, tile, playerId);
      && r.Accepted?
      && BestMove(s.board).Some?
      && var m := BestMove(s.board).value;
      && r.state.board == s.board[m := Filled(O)]
      && (forall j :: 0 <= j < 9 && s.board[j] == Empty ==> AiScore(s.board, j) <= AiScore(s.board, m))
      && (forall j :: 0 <= j < m && s.board[j] == Empty ==> AiScore(s.board, j) < AiScore(s.board, m))
      && (forall e :: e in r.events && e.DeclareWinner? ==> e.playerId == None)
  {
    BestMoveIsLowestArgmax(s.board);
  }

  /** One client request: a tile and the session's user. */
  datatype Request = Request(tile: int, playerId: Option<PlayerId>)

  /** A sequence of requests on one room, with how many were accepted. */
  function Run(s: GameState, reqs: seq<Request>): (GameState, nat)
    decreases |reqs|
  {
    if reqs == [] then (s, 0)
    else
      var r := Move(s, reqs[0].tile, reqs[0].playerId);
      if r.Accepted? then
        var (f, n) := Run(r.state, reqs[1..]);
        (f, n + 1)
      else
        Run(s, reqs[1..])
  }

  /** Every run keeps the state consistent, each accepted move fills one cell, and the seats are never changed. */
  lemma {:induction false} RunKeepsConsistent(s: GameState, reqs: seq<Request>)
    requires Consistent(s)
    ensures var (f, n) := Run(s, reqs);
      && Consistent(f)
      && EmptyCount(f.board) + n == EmptyCount(s.board)
      && f.playerXId == s.playerXId && f.playerOId == s.playerOId
    decreases |reqs|
  {
    if reqs != [] {
      var r := Move(s, reqs[0].tile, reqs[0].playerId);
      MoveKeepsConsistent(s, reqs[0].tile, reqs[0].playerId);
      if r.Accepted? {
        RunKeepsConsistent(r.state, reqs[1..]);
      } else {
        RunKeepsConsistent(s, reqs[1..]);
      }
    }
  }

  /**
   * From a freshly created room, after n accepted moves X is to move
   * exactly when n is even, at most nine moves are ever accepted, and the
   * room stays in single-player mode.
   */
  lemma TurnParity(singlePlayerMode: bool, sessionUser: Option<PlayerId>, reqs: seq<Request>)
    ensures var (f, n) := Run(CreateGameState(singlePlayerMode, sessionUser), reqs);
      && (f.turn == X <==> n % 2 == 0)
      && n <= 9
      && SinglePlayer(f)
  {
    var s0 := CreateGameState(singlePlayerMode, sessionUser);
    CreatedStateConsistent(singlePlayerMode, sessionUser);
    EmptyBoardCount();
    RunKeepsConsistent(s0, reqs);
    ParityOfMoves(Run(s0, reqs).0.turn, EmptyCount(Run(s0, reqs).0.board), Run(s0, reqs).1);
  }

  /**
   * A room opened by `on_create_game` never records an O player, so in
   * every state it reaches, each O move is the AI's.
   */
  lemma CreatedRoomAiPlaysO(reqs: seq<Request>)
    ensures var (f, n) := Run(CreateGameState(false, None), reqs);
      f.turn == O ==> AiTurn(f) && n % 2 == 1
  {
    TurnParity(false, None, reqs);
  }

  lemma ParityOfMoves(turn: Mark, empties: nat, n: nat)
    requires (turn == X <==> empties % 2 == 1) && empties + n == 9
    ensures turn == X <==> n % 2 == 0
  {
  }

  /** `on_make_move`: load the room, let the AI choose on its turn, apply the move, save. */
  method OnMakeMove(store: SessionStore, room: string, tile: int, playerId: Option<PlayerId>)
    returns (r: MoveResult)
    modifies store
    ensures r == Move(old(Stored(store.states, room)), tile, playerId)
    ensures r.Accepted? ==> store.states == old(store.states)[room := r.state]
    ensures r.Rejected? ==> store.states == old(store.states)
    ensures old(store.Valid()) ==> store.Valid()
  {
    var state := store.Get(room);
    var board := new Cell[9](i => if 0 <= i < 9 then state.board[i] else Empty);
    assert board[..] == state.board;
    var tileNumber, actor := ChooseTile(store, room, state, board, tile, playerId);
    r := ResolveMove(store, room, state, board, tileNumber, actor);
  }

  /**
   * The first step of `on_make_move`: on the AI's turn the AI's choice
   * replaces the client's tile and the move is attributed to no player.
   * None stands for the AI finding no cell.
   */
  method ChooseTile(store: SessionStore, room: string, state: GameState, board: array<Cell>,
                    tile: int, playerId: Option<PlayerId>) returns (tileNumber: Option<int>, actor: Option<PlayerId>)
    requires board.Length == 9 && board[..] == state.board
    requires state == Stored(store.states, room)
    modifies board
    ensures board[..] == old(board[..])
    ensures tileNumber == ChosenTile(state, tile) && actor == Actor(state, playerId)
  {
    tileNumber, actor := Some(tile), playerId;
    var single := store.IsSinglePlayerMode(room);
    if state.turn == O && single {
      var aiMove := FindBestMove(board);
      tileNumber, actor := aiMove, None;
    }
  }

  /** The rest of `on_make_move` once the tile is chosen: reject it, or apply it and save. */
  method ResolveMove(store: SessionStore, room: string, state: GameState, board: array<Cell>,
                     tileNumber: Option<int>, actor: Option<PlayerId>) returns (r: MoveResult)
    requires board.Length == 9 && board[..] == state.board
    modifies store, board
    ensures r == Resolve(state, tileNumber, actor)
    ensures r.Accepted? ==> store.states == old(store.states)[room := r.state]
    ensures r.Rejected? ==> store.states == old(store.states)
    ensures old(store.Valid()) && Consistent(state) ==> store.Valid()
  {
    if tileNumber.None? {
      // `state["board"][None]` raises a TypeError
      r := Rejected(NoAiMove);
    } else if !(-9 <= tileNumber.value < 9) {
      // an IndexError
      r := Rejected(TileOutOfRange);
    } else {
      var ix := if tileNumber.value < 0 then tileNumber.value + 9 else tileNumber.value;
      if board[ix] == Empty && !state.finished {
        r := ApplyMove(store, room, state, board, ix, actor);
      } else {
        r := Rejected(Ignored);
      }
    }
  }

  /** The accepted branch of `on_make_move`: mark the cell, flip the turn, settle the outcome, save. */
  method ApplyMove(store: SessionStore, room: string, state: GameState, board: array<Cell>, ix: Index,
                   actor: Option<PlayerId>) returns (r: MoveResult)
    requires board.Length == 9 && board[..] == state.board
    requires state.board[ix] == Empty && !state.finished
    modifies store, board
    ensures r == Place(state, ix, actor)
    ensures store.states == old(store.states)[room := r.state]
    ensures old(store.Valid()) && Consistent(state) ==> store.Valid()
  {
    ghost var expected := Place(state, ix, actor);
    board[ix] := Filled(state.turn);
    var next := state.(board := board[..], turn := Other(state.turn));
    var winner := CheckWinner(board[..]);
    assert board[..] == state.board[ix := Filled(state.turn)];
    assert winner == CheckWinner(expected.state.board);
    var events := [];
    if winner != Ongoing {
      next := next.(winner := winner, finished := true);
      if winner.Win? {
        events := events + [DeclareWinner(actor)];
      }
      events := events + [GameOver(winner)];
    }
    events := events + [StateUpdate(next)];
    assert next == expected.state && events == expected.events;
    if Consistent(state) {
      PlaceKeepsConsistent(state, ix, actor);
    }
    store.Save(room, next);
    r := Accepted(next, events);
  }

  /** `on_create_game`: save a fresh `create_game_state()` under the new room's code. */
  method OnCreateGame(store: SessionStore, room: string)
    modifies store
    ensures store.states == old(store.states)[room := CreateGameState(false, None)]
    ensures SinglePlayer(store.states[room])
    ensures old(store.Valid()) ==> store.Valid()
  {
    CreatedStateConsistent(false, None);
    store.Save(room, CreateGameState(false, None));
  }

  /** X opens on the centre of a new room: X is at 4 and O is to move. */
  lemma OpeningMoveScenario(user: PlayerId)
    ensures var r := Move(CreateGameState(false, None), 4, Some(user));
      && r.Accepted?
      && r.state.board == EmptyBoard[4 := Filled(X)]
      && r.state.turn == O && !r.state.finished
  {
  }

  /** X completes the top row: X wins, the game is finished and the mover is declared winner. */
  lemma WinningMoveScenario(user: PlayerId)
    ensures var s := GameState([Filled(X), Filled(X), Empty, Empty, Filled(O), Filled(O), Empty, Empty, Empty],
                               X, Ongoing, false, None, Some(user + 1));
      var r := Move(s, 2, Some(user));
      && r.Accepted?
      && r.state.winner == Win(X) && r.state.finished
      && r.events == [DeclareWinner(Some(user)), GameOver(Win(X)), StateUpdate(r.state)]
  {
    var full := [Filled(X), Filled(X), Filled(X), Empty, Filled(O), Filled(O), Empty, Empty, Empty];
    assert Uniform(full, Lines[0]);
  }

  /** X fills the last cell without completing a line: a draw, and no winner is declared. */
  lemma DrawScenario(user: PlayerId)
    ensures var s := GameState([Filled(X), Filled(O), Filled(X), Filled(X), Filled(O), Filled(O), Filled(O), Filled(X), Empty],
                               X, Ongoing, false, None, Some(user + 1));
      var r := Move(s, 8, Some(user));
      && r.Accepted?
      && r.state.winner == Draw && r.state.finished
      && r.events == [GameOver(Draw), StateUpdate(r.state)]
  {
    var full := [Filled(X), Filled(O), Filled(X), Filled(X), Filled(O), Filled(O), Filled(O), Filled(X), Filled(X)];
    assert Empty !in full;
  }
}
