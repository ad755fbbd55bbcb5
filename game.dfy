/**
 * `CheckersGameModel`: the turn, the board, and the rules the server
 * enforces. The listeners it notifies are replaced by a log of the events it
 * emits, in emission order.
 */
module Game {
  import opened Wrappers
  import opened Vectors
  import opened Positions
  import opened Teams
  import opened Counter
  import opened Pieces
  import opened Board
  import opened Layout

  /** The `GameEventListener` callbacks, one constructor each. */
  datatype GameEvent =
    | GameComplete(winner: Team)
    | MoveMade(from: Position, to: Position)
    | BoardUpdate(pieces: map<Position, Piece>)
    | TurnChange(turn: Team)
    | PieceRemoved(at: Position)

  function Abs(n: int): (r: nat)
    ensures r == n || r == -n
  {
    if n < 0 then -n else n
  }

  /** The turn after a simple move: White passes to Black, anything else to White. */
  function Flip(t: Team): (r: Team)
    ensures r != Spectator
    ensures t != Spectator ==> r != t
  {
    if t == White then Black else White
  }

  lemma FlipAlternates(t: Team)
    requires t != Spectator
    ensures Flip(t) != t && Flip(Flip(t)) == t
  {
  }

  /** The square `makeMove` empties on a jump: the coordinate-wise halves of the sums. */
  function Midpoint(from: Position, to: Position): (m: Position)
    ensures Abs(to.x - from.x) == 2 ==> m.x != from.x && m.x != to.x
  {
    Vector2i((from.x + to.x) / 2, (from.y + to.y) / 2)
  }

  /** `isGameOver`: White or Black has no piece left. */
  predicate GameOver(m: map<Position, Piece>) {
    |TeamSquares(m, White)| == 0 || |TeamSquares(m, Black)| == 0
  }

  /** Java `Math.abs` of the displacement classifies moves; these are the two legal shapes. */
  predicate SimpleStep(from: Position, to: Position) {
    Abs(to.x - from.x) == 1 && Abs(to.y - from.y) == 1
  }

  predicate JumpStep(from: Position, to: Position) {
    Abs(to.x - from.x) == 2 && Abs(to.y - from.y) == 2
  }

  /** The square `canMakeMove` checks for a jump: `from + d / 2` (exact, since d is 2 or -2). */
  function JumpedSquare(from: Position, to: Position): (m: Position)
    requires JumpStep(from, to)
    ensures m == Midpoint(from, to)
  {
    Vector2i(from.x + (to.x - from.x) / 2, from.y + (to.y - from.y) / 2)
  }

  /** What `getWinner` reports: completion, naming the side to move, once the game is over. */
  function Completion(over: bool, turn: Team): (es: seq<GameEvent>)
    ensures over <==> |es| == 1
    ensures !over <==> es == []
    ensures over ==> es[0] == GameComplete(turn)
  {
    if over then [GameComplete(turn)] else []
  }

  /**
   * What a jump reports, in order: the removed square, the move, and, when a
   * side has run out, completion twice (once from `getWinner`, once from
   * `makeMove` itself).
   */
  function JumpEvents(from: Position, to: Position, over: bool, turn: Team): (es: seq<GameEvent>)
    ensures |es| == if over then 4 else 2
    ensures es[0] == PieceRemoved(Midpoint(from, to)) && es[1] == MoveMade(from, to)
    ensures forall i :: 2 <= i < |es| ==> es[i] == GameComplete(turn)
  {
    [PieceRemoved(Midpoint(from, to)), MoveMade(from, to)] + Completion(over, turn) + Completion(over, turn)
  }

  lemma JumpEventsSplit(e0: seq<GameEvent>, from: Position, to: Position, over: bool, turn: Team)
    ensures e0 + [PieceRemoved(Midpoint(from, to)), MoveMade(from, to)] + Completion(over, turn) + Completion(over, turn)
      == e0 + JumpEvents(from, to, over, turn)
  {
  }

  /** One square of the walk in `getPiecesOfTeam`: a piece of `team` is collected once. */
  lemma WalkStep(m: map<Position, Piece>, team: Team, todo: set<Position>, found: set<Position>, p: Position)
    requires todo <= m.Keys && p in todo
    requires found == TeamSquares(m, team) - todo
    ensures m[p].team == team ==> found + {p} == TeamSquares(m, team) - (todo - {p}) && |found + {p}| == |found| + 1
    ensures m[p].team != team ==> found == TeamSquares(m, team) - (todo - {p})
  {
  }

  /**
   * `pieces` lists the pieces of `m` on the squares of `s`, one entry per square:
   * `squares[i]` is the square the i-th piece was taken from.
   */
  ghost predicate Listing(m: map<Position, Piece>, s: set<Position>, pieces: seq<Piece>, squares: seq<Position>)
  {
    && |squares| == |pieces|
    && (forall i :: 0 <= i < |squares| ==> squares[i] in s && squares[i] in m && m[squares[i]] == pieces[i])
    && (forall i, j :: 0 <= i < j < |squares| ==> squares[i] != squares[j])
    && (forall p :: p in s ==> p in squares)
  }

  /** Collecting the piece of one more square keeps the listing. */
  lemma ListingStep(m: map<Position, Piece>, s: set<Position>, pieces: seq<Piece>, squares: seq<Position>, p: Position)
    requires Listing(m, s, pieces, squares)
    requires p in m && p !in s
    ensures Listing(m, s + {p}, pieces + [m[p]], squares + [p])
  {
    var squares', pieces' := squares + [p], pieces + [m[p]];
    forall i, j | 0 <= i < j < |squares'|
      ensures squares'[i] != squares'[j]
    {
      if j == |squares| {
        assert squares[i] in s;
      }
    }
  }

  /** A listing of a team's squares lists only that team's pieces, and each of its pieces. */
  lemma ListingPieces(m: map<Position, Piece>, team: Team, pieces: seq<Piece>, squares: seq<Position>)
    requires Listing(m, TeamSquares(m, team), pieces, squares)
    ensures forall i :: 0 <= i < |pieces| ==> pieces[i].team == team
    ensures forall p :: p in TeamSquares(m, team) ==> m[p] in pieces
    ensures forall x :: x in pieces ==> exists p :: p in TeamSquares(m, team) && m[p] == x
  {
    forall p | p in TeamSquares(m, team)
      ensures m[p] in pieces
    {
      var i :| 0 <= i < |squares| && squares[i] == p;
      assert pieces[i] == m[p];
    }
    forall x | x in pieces
      ensures exists p :: p in TeamSquares(m, team) && m[p] == x
    {
      var i :| 0 <= i < |pieces| && pieces[i] == x;
      assert squares[i] in TeamSquares(m, team) && m[squares[i]] == x;
    }
  }

  class CheckersGameModel {
    const board: BoardModel
    var currentTurn: Team
    /** Every listener notification so far, oldest first. */
    var events: seq<GameEvent>

    /**
     * `CheckersGameModel(boardModel, initialSetup)`: White to move; with the
     * initial setup, White serfs on rows 0-2 and Black serfs on rows 5-7 on
     * the squares with x + y odd, then one board update.
     */
    constructor (board: BoardModel, initialSetup: bool, counter: Incrementer)
      requires counter.Valid()
      modifies board, counter
      ensures this.board == board && currentTurn == White
      ensures counter.Valid()
      ensures !initialSetup ==> events == [] && board.squares == old(board.squares)
      ensures initialSetup ==> events == [BoardUpdate(board.squares)]
      ensures initialSetup ==> InitialLayout(old(board.squares), board.squares)
      ensures initialSetup && old(board.squares) == map[] ==> StartingCounts(board.squares)
    {
      this.board := board;
      currentTurn := White;
      events := [];
      new;
      if initialSetup {
        SetupInitialBoard(counter);
      }
    }

    /**
     * `setupInitialBoard`: White serfs on rows 0-2, Black serfs on rows 5-7,
     * then one board update.
     */
    method SetupInitialBoard(counter: Incrementer)
      requires counter.Valid()
      modifies this, board, counter
      ensures counter.Valid()
      ensures currentTurn == old(currentTurn)
      ensures events == old(events) + [BoardUpdate(board.squares)]
      ensures InitialLayout(old(board.squares), board.squares)
      ensures old(board.squares) == map[] ==> StartingCounts(board.squares)
    {
      ghost var m0 := board.squares;
      SetupBoardSideHelper(0, 2, White, counter);
      ghost var m1 := board.squares;
      SetupBoardSideHelper(5, 7, Black, counter);
      BothSides(m0, m1, board.squares);
      events := events + [BoardUpdate(board.squares)];
    }

    /** `setupBoardSideHelper`: a serf of `team`, with a fresh id, on every square of the rows with x + y odd. */
    method SetupBoardSideHelper(startRow: int, endRow: int, team: Team, counter: Incrementer)
      requires 0 <= startRow <= endRow < 8
      requires counter.Valid()
      modifies board, counter
      ensures counter.Valid()
      ensures Filled(old(board.squares), board.squares, SideSquares(startRow, endRow), team)
    {
      ghost var m0 := board.squares;
      var y := startRow;
      while y <= endRow
        invariant startRow <= y <= endRow + 1
        invariant counter.Valid()
        invariant Filled(m0, board.squares, SideSquares(startRow, y - 1), team)
      {
        FillNextRow(startRow, y, team, counter, m0);
        y := y + 1;
      }
    }

    /** One pass of the outer loop: row y filled after rows startRow to y - 1. */
    method FillNextRow(startRow: int, y: int, team: Team, counter: Incrementer, ghost m0: map<Position, Piece>)
      requires 0 <= startRow <= y < 8
      requires counter.Valid()
      requires Filled(m0, board.squares, SideSquares(startRow, y - 1), team)
      modifies board, counter
      ensures counter.Valid()
      ensures Filled(m0, board.squares, SideSquares(startRow, y), team)
    {
      ghost var m1 := board.squares;
      FillRow(y, team, counter);
      FilledThen(m0, m1, board.squares, SideSquares(startRow, y - 1), RowSquares(y), team);
    }

    /** The inner loop of `setupBoardSideHelper`: one row, columns 0 to 7. */
    method FillRow(y: int, team: Team, counter: Incrementer)
      requires 0 <= y < 8
      requires counter.Valid()
      modifies board, counter
      ensures counter.Valid()
      ensures Filled(old(board.squares), board.squares, RowSquares(y), team)
    {
      ghost var m0 := board.squares;
      RowPrefixEnds(y);
      var x := 0;
      while x < 8
        invariant 0 <= x <= 8
        invariant counter.Valid()
        invariant Filled(m0, board.squares, RowPrefix(y, x), team)
      {
        RowPrefixStep(y, x);
        if (x + y) % 2 != 0 {
          var p: Position := Vector2i(x, y);
          var piece := NewPiece(team, Serf, counter);
          FilledAdd(m0, board.squares, RowPrefix(y, x), team, p, piece);
          board.AddPiece(piece, p);
        }
        x := x + 1;
      }
      RowPrefixEnds(y);
    }

    /**
     * `canMakeMove`: reads the board only. `from` must hold a piece and `to`
     * must be empty; a one-square diagonal step is legal, and a two-square
     * diagonal jump is legal iff the square jumped over holds any piece.
     */
    function CanMakeMove(from: Position, to: Position): (r: bool)
      reads this, board
      ensures r ==> board.IsOccupied(from) && !board.IsOccupied(to) && from != to
      ensures r ==> SimpleStep(from, to) || JumpStep(from, to)
    {
      if !board.IsOccupied(from) || board.IsOccupied(to) then false
      else if SimpleStep(from, to) then true
      else if JumpStep(from, to) then board.IsOccupied(JumpedSquare(from, to))
      else false
    }

    /**
     * `getPiecesOfTeam`: a walk over the occupied squares collecting the pieces of `team`.
     * `squares` names the square each listed piece was taken from: every team square
     * exactly once, so each piece is listed as often as it stands on a team square.
     */
    method PiecesOfTeam(team: Team) returns (pieces: seq<Piece>, ghost squares: seq<Position>)
      ensures |pieces| == |TeamSquares(board.squares, team)|
      ensures forall i :: 0 <= i < |pieces| ==> pieces[i].team == team
      ensures forall p :: p in TeamSquares(board.squares, team) ==> board.squares[p] in pieces
      ensures forall x :: x in pieces ==> exists p :: p in TeamSquares(board.squares, team) && board.squares[p] == x
      ensures |squares| == |pieces|
      ensures forall i, j :: 0 <= i < j < |squares| ==> squares[i] != squares[j]
      ensures forall i :: 0 <= i < |squares| ==> squares[i] in TeamSquares(board.squares, team) && pieces[i] == board.squares[squares[i]]
    {
      var m := board.squares;
      var todo := m.Keys;
      ghost var found: set<Position> := {};
      squares := [];
      pieces := [];
      while todo != {}
        invariant todo <= m.Keys
        invariant found == TeamSquares(m, team) - todo
        invariant |pieces| == |found|
        invariant Listing(m, found, pieces, squares)
        decreases |todo|
      {
        var p :| p in todo;
        WalkStep(m, team, todo, found, p);
        if m[p].team == team {
          ListingStep(m, found, pieces, squares, p);
          pieces := pieces + [m[p]];
          squares := squares + [p];
          found := found + {p};
        }
        todo := todo - {p};
      }
      ListingPieces(m, team, pieces, squares);
    }

    /** `isGameOver`: White or Black has no pieces. */
    method IsGameOver() returns (over: bool)
      ensures over <==> GameOver(board.squares)
    {
      ghost var whiteSquares, blackSquares;
      var white, black;
      white, whiteSquares := PiecesOfTeam(White);
      black, blackSquares := PiecesOfTeam(Black);
      over := |white| == 0 || |black| == 0;
    }

    /** `getWinner`: once the game is over, reports completion and names the side to move. */
    method GetWinner() returns (winner: Option<Team>)
      modifies this
      ensures currentTurn == old(currentTurn)
      ensures winner.Some? <==> GameOver(board.squares)
      ensures winner.Some? ==> winner.value == currentTurn
      ensures events == old(events) + Completion(winner.Some?, currentTurn)
    {
      var over := IsGameOver();
      if over {
        events := events + [GameComplete(currentTurn)];
        winner := Some(currentTurn);
      } else {
        winner := None;
      }
    }

    /**
     * `makeMove`: false, changing nothing, when `from` is empty or holds a
     * piece of another team; an exception from `movePiece` otherwise when
     * `to` is `from` or occupied. A move of two columns is a jump: the
     * square between is emptied, the turn stays, and completion is reported
     * twice if a side has run out. Any other move flips the turn.
     */
    method MakeMove(from: Position, to: Position) returns (r: Result<bool, BoardError>)
      modifies this, board
      ensures old(!board.IsOccupied(from) || board.squares[from].team != currentTurn) ==>
        r == Ok(false) && board.squares == old(board.squares) && currentTurn == old(currentTurn) && events == old(events)
      ensures r.Err? <==> old(board.IsOccupied(from) && board.squares[from].team == currentTurn && (from == to || board.IsOccupied(to)))
      ensures r.Err? ==> board.squares == old(board.squares) && currentTurn == old(currentTurn) && events == old(events)
      ensures r == Ok(false) ==> old(!board.IsOccupied(from) || board.squares[from].team != currentTurn)
      ensures r == Ok(true) ==> old(board.IsOccupied(from)) && !old(board.IsOccupied(to)) && from != to
      ensures r == Ok(true) && Abs(to.x - from.x) == 2 ==>
        board.squares == Relocate(old(board.squares), from, to) - {Midpoint(from, to)} &&
        currentTurn == old(currentTurn) &&
        events == old(events) + JumpEvents(from, to, GameOver(board.squares), currentTurn)
      ensures r == Ok(true) && Abs(to.x - from.x) != 2 ==>
        board.squares == Relocate(old(board.squares), from, to) &&
        currentTurn == Flip(old(currentTurn)) &&
        events == old(events) + [TurnChange(currentTurn), MoveMade(from, to)]
    {
      var pieceOpt := board.PieceAt(from);
      if pieceOpt.None? {
        return Ok(false);
      }
      if pieceOpt.value.team != currentTurn {
        return Ok(false);
      }
      var err := board.MovePiece(from, to);
      if err.Some? {
        return Err(err.value);
      }
      if Abs(to.x - from.x) == 2 {
        var _ := FinishJump(from, to);
        return Ok(true);
      }
      currentTurn := Flip(currentTurn);
      events := events + [TurnChange(currentTurn), MoveMade(from, to)];
      r := Ok(true);
    }

    /**
     * The jump branch of `makeMove`, after the piece has moved: empties the
     * square between, reports the removal and the move, and asks for the
     * winner, reporting completion once more if there is one.
     */
    method FinishJump(from: Position, to: Position) returns (over: bool)
      modifies this, board
      ensures board.squares == old(board.squares) - {Midpoint(from, to)}
      ensures currentTurn == old(currentTurn)
      ensures over <==> GameOver(board.squares)
      ensures events == old(events) + JumpEvents(from, to, over, currentTurn)
    {
      RemoveJumped(from, to);
      var winner := GetWinner();
      over := winner.Some?;
      if over {
        events := events + [GameComplete(currentTurn)];
      }
      JumpEventsSplit(old(events), from, to, over, currentTurn);
    }

    /** The first half of the jump branch: empty the square between and report it, then the move. */
    method RemoveJumped(from: Position, to: Position)
      modifies this, board
      ensures board.squares == old(board.squares) - {Midpoint(from, to)}
      ensures currentTurn == old(currentTurn)
      ensures events == old(events) + [PieceRemoved(Midpoint(from, to)), MoveMade(from, to)]
    {
      var jumped := CreatePosition((from.x + to.x) / 2, (from.y + to.y) / 2);
      var mid := jumped.value;
      assert mid == Midpoint(from, to);
      var _ := board.RemovePiece(mid);
      events := events + [PieceRemoved(mid), MoveMade(from, to)];
    }

    /** `setCurrentTurn`: sets the side to move and reports the change. */
    method SetCurrentTurn(team: Team)
      modifies this
      ensures currentTurn == team && events == old(events) + [TurnChange(team)]
    {
      currentTurn := team;
      events := events + [TurnChange(team)];
    }

    /** `updateNewTurn`: the same effect as `setCurrentTurn`. */
    method UpdateNewTurn(team: Team)
      modifies this
      ensures currentTurn == team && events == old(events) + [TurnChange(team)]
    {
      SetCurrentTurn(team);
    }

    /** `applyServerConfirmedMove`: moves without rule checks, then reports the board. */
    method ApplyServerConfirmedMove(from: Position, to: Position) returns (err: Option<BoardError>)
      modifies this, board
      ensures currentTurn == old(currentTurn)
      ensures err.None? <==> from != to && old(board.IsOccupied(from)) && !old(board.IsOccupied(to))
      ensures err.Some? ==> board.squares == old(board.squares) && events == old(events)
      ensures err.None? ==> board.squares == Relocate(old(board.squares), from, to)
      ensures err.None? ==> events == old(events) + [BoardUpdate(board.squares)]
    {
      err := board.MovePiece(from, to);
      if err.None? {
        events := events + [BoardUpdate(board.squares)];
      }
    }

    /** `applyServerRemovePiece`: empties the square, then reports the board. */
    method ApplyServerRemovePiece(p: Position)
      modifies this, board
      ensures currentTurn == old(currentTurn)
      ensures board.squares == old(board.squares) - {p}
      ensures events == old(events) + [BoardUpdate(board.squares)]
    {
      var _ := board.RemovePiece(p);
      events := events + [BoardUpdate(board.squares)];
    }
  }

  /** A one-square diagonal step onto an empty square is always legal. */
  lemma SimpleStepLegal(g: CheckersGameModel, from: Position, to: Position)
    requires g.board.IsOccupied(from) && !g.board.IsOccupied(to) && SimpleStep(from, to)
    ensures g.CanMakeMove(from, to)
  {
  }

  /**
   * A jump is legal iff the square between holds a piece, whoever owns it:
   * jumping over one's own piece is allowed.
   */
  lemma JumpLegalIffMidpointOccupied(g: CheckersGameModel, from: Position, to: Position)
    requires g.board.IsOccupied(from) && !g.board.IsOccupied(to) && JumpStep(from, to)
    ensures g.CanMakeMove(from, to) <==> g.board.IsOccupied(Midpoint(from, to))
  {
  }

  /** Any other displacement is refused. */
  lemma OtherStepsIllegal(g: CheckersGameModel, from: Position, to: Position)
    requires !SimpleStep(from, to) && !JumpStep(from, to)
    ensures !g.CanMakeMove(from, to)
  {
  }

  /** A legal move never makes `movePiece` throw. */
  lemma LegalMoveMovable(g: CheckersGameModel, from: Position, to: Position)
    requires g.CanMakeMove(from, to)
    ensures from != to && from in g.board.squares && to !in g.board.squares
  {
  }
}
