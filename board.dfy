/**
 * `BoardModel`: a sparse board, a map from squares to the pieces on them,
 * updated in place by add, remove and move.
 */
module Board {
  import opened Wrappers
  import opened Vectors
  import opened Positions
  import opened Pieces

  /** The exceptions the board's operations throw. */
  datatype BoardError =
    | InvalidDimensions      // constructor: width or height below 8
    | SamePosition           // movePiece: from equals to
    | NoPieceAtSource        // movePiece: nothing at from
    | DestinationOccupied    // movePiece: something at to
    | InvalidPosition        // createPosition: coordinates off the board

  /** The squares after the piece at `from` is taken off and put down at `to`. */
  function Relocate(m: map<Position, Piece>, from: Position, to: Position): (r: map<Position, Piece>)
    requires from in m
    ensures to in r && r[to] == m[from]
    ensures from != to ==> from !in r
    ensures forall q :: q != from && q != to ==> (q in r <==> q in m)
    ensures forall q :: q != from && q != to && q in m ==> r[q] == m[q]
  {
    (m - {from})[to := m[from]]
  }

  /** Taking a square's piece away leaves one piece fewer. */
  lemma RemoveCount(m: map<Position, Piece>, p: Position)
    requires p in m
    ensures |m - {p}| == |m| - 1
  {
    assert (m - {p}).Keys == m.Keys - {p};
    assert |m.Keys - {p}| == |m.Keys| - 1;
  }

  /** Putting a piece on an empty square adds one piece. */
  lemma AddCount(m: map<Position, Piece>, p: Position, piece: Piece)
    requires p !in m
    ensures |m[p := piece]| == |m| + 1
  {
    assert m[p := piece].Keys == m.Keys + {p};
  }

  /** A move onto an empty square keeps the number of pieces. */
  lemma {:induction false} RelocateCount(m: map<Position, Piece>, from: Position, to: Position)
    requires from in m && to !in m
    ensures |Relocate(m, from, to)| == |m|
  {
    RemoveCount(m, from);
    AddCount(m - {from}, to, m[from]);
  }

  /** `createPosition`: the position, or an IllegalArgumentException off the board. */
  function CreatePosition(x: int, y: int): (r: Result<Position, BoardError>)
    ensures r.Ok? <==> InBounds(x) && InBounds(y)
    ensures r.Ok? ==> r.value == Vector2i(x, y)
    ensures r.Err? ==> r.error == InvalidPosition
  {
    match NewPosition(x, y)
    case Ok(p) => Ok(p)
    case Err(_) => Err(InvalidPosition)
  }

  class BoardModel {
    /** `boardSpace`: each occupied square and its piece. */
    var squares: map<Position, Piece>
    const width: int
    const height: int

    /** `new BoardModel(width, height)` once the dimension check has passed. */
    constructor (width: int, height: int)
      requires width >= 8 && height >= 8
      ensures this.width == width && this.height == height
      ensures squares == map[]
    {
      this.width := width;
      this.height := height;
      squares := map[];
    }

    /** `new BoardModel(width, height)`: throws unless both are at least 8; starts empty. */
    static method Create(width: int, height: int) returns (r: Result<BoardModel, BoardError>)
      ensures r.Err? <==> width < 8 || height < 8
      ensures r.Err? ==> r.error == InvalidDimensions
      ensures r.Ok? ==> fresh(r.value) && r.value.squares == map[]
      ensures r.Ok? ==> r.value.width == width && r.value.height == height
    {
      if width < 8 || height < 8 {
        r := Err(InvalidDimensions);
      } else {
        var b := new BoardModel(width, height);
        r := Ok(b);
      }
    }

    /** `getPieceOptional` / `getPieceAt`: the piece on `p`, if any. */
    function PieceAt(p: Position): (r: Option<Piece>)
      reads this
      ensures r.Some? <==> p in squares
      ensures r.Some? ==> r.value == squares[p]
    {
      if p in squares then Some(squares[p]) else None
    }

    /** `isOccupied`: true exactly when a piece is found on `p`. */
    function IsOccupied(p: Position): (r: bool)
      reads this
      ensures r <==> PieceAt(p).Some?
    {
      p in squares
    }

    /** `getNumberOfPieces`: the number of occupied squares. */
    function NumberOfPieces(): (n: nat)
      reads this
      ensures n == |squares.Keys|
    {
      |squares|
    }

    /** `addPiece`: puts `piece` on `p`, replacing any occupant. */
    method AddPiece(piece: Piece, p: Position)
      modifies this
      ensures squares == old(squares)[p := piece]
      ensures NumberOfPieces() == old(NumberOfPieces()) + (if old(IsOccupied(p)) then 0 else 1)
    {
      if p !in squares {
        AddCount(squares, p, piece);
      }
      squares := squares[p := piece];
    }

    /** `removePiece`: empties `p`; true iff a piece was there. */
    method RemovePiece(p: Position) returns (removed: bool)
      modifies this
      ensures removed <==> old(IsOccupied(p))
      ensures squares == old(squares) - {p}
      ensures NumberOfPieces() == old(NumberOfPieces()) - (if removed then 1 else 0)
    {
      removed := p in squares;
      if removed {
        RemoveCount(squares, p);
      }
      squares := squares - {p};
    }

    /**
     * `movePiece`: fails, changing nothing, if `from == to`, if `from` is
     * empty or if `to` is occupied (checked in that order); otherwise the
     * piece goes from `from` to `to`.
     */
    method MovePiece(from: Position, to: Position) returns (err: Option<BoardError>)
      modifies this
      ensures from == to ==> err == Some(SamePosition)
      ensures from != to && !old(IsOccupied(from)) ==> err == Some(NoPieceAtSource)
      ensures from != to && old(IsOccupied(from)) && old(IsOccupied(to)) ==> err == Some(DestinationOccupied)
      ensures err.Some? ==> squares == old(squares)
      ensures err.None? <==> from != to && old(IsOccupied(from)) && !old(IsOccupied(to))
      ensures err.None? ==> squares == Relocate(old(squares), from, to)
      ensures err.None? ==> NumberOfPieces() == old(NumberOfPieces())
    {
      if Equals(from, to) {
        return Some(SamePosition);
      }
      var piece := PieceAt(from);
      if piece.None? {
        return Some(NoPieceAtSource);
      }
      if IsOccupied(to) {
        return Some(DestinationOccupied);
      }
      RelocateCount(squares, from, to);
      squares := (squares - {from})[to := piece.value];
      err := None;
    }
  }
}
