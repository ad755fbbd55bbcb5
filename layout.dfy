/**
 * The squares the initial setup fills and how many pieces it leaves: the
 * facts behind `setupInitialBoard` and `setupBoardSideHelper`.
 */
module Layout {
  import opened Vectors
  import opened Positions
  import opened Teams
  import opened Pieces

  /** The squares holding a piece of `team` (what `getPiecesOfTeam` walks to). */
  function TeamSquares(m: map<Position, Piece>, team: Team): (s: set<Position>)
    ensures s <= m.Keys
    ensures forall p :: p in m && m[p].team == team ==> p in s
  {
    set p | p in m && m[p].team == team
  }

  /** The four squares of row y with x + y odd. */
  function RowSquares(y: int): (r: set<Position>)
    requires 0 <= y < 8
    ensures forall p :: p in r ==> p.y == y
  {
    if y % 2 == 0 then {Vector2i(1, y), Vector2i(3, y), Vector2i(5, y), Vector2i(7, y)}
    else {Vector2i(0, y), Vector2i(2, y), Vector2i(4, y), Vector2i(6, y)}
  }

  /** Every row has four dark squares. */
  lemma RowCount(y: int)
    requires 0 <= y < 8
    ensures |RowSquares(y)| == 4
  {
  }

  /** `RowSquares(y)` are exactly the squares of row y where x + y is odd. */
  lemma RowMembers(p: Position)
    ensures p in RowSquares(p.y) <==> (p.x + p.y) % 2 != 0
  {
    if p.y % 2 == 0 {
      assert (p.x + p.y) % 2 == p.x % 2;
    } else {
      assert (p.x + p.y) % 2 != p.x % 2;
    }
  }

  /** The dark squares of row y left of column x: what the inner loop has filled when it reaches x. */
  function RowPrefix(y: int, x: int): (r: set<Position>)
    requires 0 <= y < 8
    ensures r <= RowSquares(y)
  {
    set p | p in RowSquares(y) && p.x < x
  }

  /** One column further, the dark square joins the prefix. */
  lemma RowPrefixStep(y: int, x: int)
    requires 0 <= y < 8 && 0 <= x < 8
    ensures (x + y) % 2 != 0 ==> RowPrefix(y, x + 1) == RowPrefix(y, x) + {Vector2i(x, y)}
    ensures (x + y) % 2 == 0 ==> RowPrefix(y, x + 1) == RowPrefix(y, x)
  {
    RowMembers(Vector2i(x, y));
  }

  lemma RowPrefixEnds(y: int)
    requires 0 <= y < 8
    ensures RowPrefix(y, 0) == {}
    ensures RowPrefix(y, 8) == RowSquares(y)
  {
  }

  /** The squares `setupBoardSideHelper(startRow, endRow, _)` fills: rows startRow to endRow, x + y odd. */
  function SideSquares(startRow: int, endRow: int): set<Position>
    requires 0 <= startRow && endRow < 8
    decreases endRow - startRow
  {
    if endRow < startRow then {} else SideSquares(startRow, endRow - 1) + RowSquares(endRow)
  }

  lemma {:induction false} SideMembers(startRow: int, endRow: int, p: Position)
    requires 0 <= startRow && endRow < 8
    ensures p in SideSquares(startRow, endRow) <==> startRow <= p.y <= endRow && (p.x + p.y) % 2 != 0
    decreases endRow - startRow
  {
    if startRow <= endRow {
      SideMembers(startRow, endRow - 1, p);
      RowMembers(p);
    }
  }

  /** Each row of a side contributes four squares. */
  lemma {:induction false} SideCount(startRow: int, endRow: int)
    requires 0 <= startRow <= endRow + 1 && endRow < 8
    ensures |SideSquares(startRow, endRow)| == 4 * (endRow - startRow + 1)
    decreases endRow - startRow
  {
    if startRow <= endRow {
      SideCount(startRow, endRow - 1);
      RowCount(endRow);
      forall p | p in RowSquares(endRow)
        ensures p !in SideSquares(startRow, endRow - 1)
      {
        SideMembers(startRow, endRow - 1, p);
      }
      assert SideSquares(startRow, endRow - 1) !! RowSquares(endRow);
    }
  }

  /** No piece stands in rows `startRow` to `endRow`. */
  predicate RowsEmpty(m: map<Position, Piece>, startRow: int, endRow: int) {
    forall p :: p in m ==> !(startRow <= p.y <= endRow)
  }

  /** `m` is `m0` with a serf of `team` added on each square of `covered`. */
  predicate Filled(m0: map<Position, Piece>, m: map<Position, Piece>, covered: set<Position>, team: Team) {
    && m.Keys == m0.Keys + covered
    && (forall p :: p in covered ==> m[p].team == team && m[p].kind == Serf)
    && (forall p :: p in m0 && p !in covered ==> m[p] == m0[p])
  }

  /** Adding one more serf of `team` keeps `Filled`. */
  lemma FilledAdd(m0: map<Position, Piece>, m: map<Position, Piece>, covered: set<Position>, team: Team, p: Position, piece: Piece)
    requires Filled(m0, m, covered, team)
    requires piece.team == team && piece.kind == Serf
    ensures Filled(m0, m[p := piece], covered + {p}, team)
  {
  }

  /** Filling `a` and then `b` fills `a + b`. */
  lemma FilledThen(m0: map<Position, Piece>, m1: map<Position, Piece>, m2: map<Position, Piece>, a: set<Position>, b: set<Position>, team: Team)
    requires Filled(m0, m1, a, team) && Filled(m1, m2, b, team)
    ensures Filled(m0, m2, a + b, team)
  {
  }

  /** Side squares lie in their own rows, so they miss every piece of an empty band. */
  lemma SideDisjoint(m0: map<Position, Piece>, startRow: int, endRow: int)
    requires 0 <= startRow && endRow < 8
    requires RowsEmpty(m0, startRow, endRow)
    ensures m0.Keys !! SideSquares(startRow, endRow)
  {
    forall p | p in m0
      ensures p !in SideSquares(startRow, endRow)
    {
      SideMembers(startRow, endRow, p);
    }
  }

  /** The squares of each team after filling squares disjoint from the board with serfs of `team`. */
  lemma SetupTeamSquares(m0: map<Position, Piece>, m: map<Position, Piece>, side: set<Position>, team: Team, t: Team)
    requires m0.Keys !! side
    requires m.Keys == m0.Keys + side
    requires forall p :: p in side ==> m[p].team == team
    requires forall p :: p in m0 ==> m[p] == m0[p]
    ensures t == team ==> TeamSquares(m, t) == TeamSquares(m0, t) + side
    ensures t != team ==> TeamSquares(m, t) == TeamSquares(m0, t)
  {
  }

  /**
   * When the rows were empty, filling them adds exactly the side's squares
   * to the board and to `team`'s pieces, and leaves the other teams alone.
   */
  lemma {:induction false} SetupCounts(m0: map<Position, Piece>, m: map<Position, Piece>, startRow: int, endRow: int, team: Team)
    requires 0 <= startRow <= endRow < 8
    requires RowsEmpty(m0, startRow, endRow)
    requires Filled(m0, m, SideSquares(startRow, endRow), team)
    ensures |m| == |m0| + 4 * (endRow - startRow + 1)
    ensures |TeamSquares(m, team)| == |TeamSquares(m0, team)| + 4 * (endRow - startRow + 1)
    ensures forall t :: t != team ==> TeamSquares(m, t) == TeamSquares(m0, t)
  {
    var side := SideSquares(startRow, endRow);
    SideCount(startRow, endRow);
    SideDisjoint(m0, startRow, endRow);
    assert |m.Keys| == |m0.Keys| + |side|;
    SetupTeamSquares(m0, m, side, team, team);
    assert TeamSquares(m0, team) !! side;
    forall t | t != team
      ensures TeamSquares(m, t) == TeamSquares(m0, t)
    {
      SetupTeamSquares(m0, m, side, team, t);
    }
  }

  /** 24 pieces on the board, 12 for each side. */
  predicate StartingCounts(m: map<Position, Piece>) {
    |m| == 24 && |TeamSquares(m, White)| == 12 && |TeamSquares(m, Black)| == 12
  }

  /** A board holding only the squares of rows s1 to e1 has nothing in the rows after them. */
  lemma BandClear(m: map<Position, Piece>, s1: int, e1: int, s2: int, e2: int)
    requires 0 <= s1 <= e1 < s2 <= e2 < 8
    requires m.Keys == SideSquares(s1, e1)
    ensures RowsEmpty(m, s2, e2)
  {
    forall p | p in m
      ensures !(s2 <= p.y <= e2)
    {
      SideMembers(s1, e1, p);
    }
  }

  /** Two disjoint bands filled on an empty board: four pieces per row, each band for its own team. */
  lemma InitialCounts(m0: map<Position, Piece>, m1: map<Position, Piece>, m2: map<Position, Piece>, s1: int, e1: int, s2: int, e2: int)
    requires 0 <= s1 <= e1 < s2 <= e2 < 8
    requires m0 == map[]
    requires Filled(m0, m1, SideSquares(s1, e1), White)
    requires Filled(m1, m2, SideSquares(s2, e2), Black)
    ensures |m2| == 4 * (e1 - s1 + 1) + 4 * (e2 - s2 + 1)
    ensures |TeamSquares(m2, White)| == 4 * (e1 - s1 + 1)
    ensures |TeamSquares(m2, Black)| == 4 * (e2 - s2 + 1)
  {
    assert TeamSquares(m0, White) == {} && TeamSquares(m0, Black) == {};
    SetupCounts(m0, m1, s1, e1, White);
    BandClear(m1, s1, e1, s2, e2);
    SetupCounts(m1, m2, s2, e2, Black);
  }

  /**
   * `m` is `m0` with White serfs added on the dark squares of rows 0-2 and
   * Black serfs on those of rows 5-7, every other square as it was: the
   * board `setupInitialBoard` leaves.
   */
  predicate InitialLayout(m0: map<Position, Piece>, m: map<Position, Piece>) {
    && m.Keys == m0.Keys + SideSquares(0, 2) + SideSquares(5, 7)
    && (forall p :: p in SideSquares(0, 2) ==> m[p].team == White && m[p].kind == Serf)
    && (forall p :: p in SideSquares(5, 7) ==> m[p].team == Black && m[p].kind == Serf)
    && (forall p :: p in m0 && p !in SideSquares(0, 2) && p !in SideSquares(5, 7) ==> m[p] == m0[p])
  }

  /** The squares the setup fills, in closed form: rows 0-2 and 5-7, x + y odd. */
  predicate StartSquare(p: Position) {
    (0 <= p.y <= 2 || 5 <= p.y <= 7) && (p.x + p.y) % 2 != 0
  }

  /** The starting board square by square: serfs on the start squares, White's on rows 0-2, Black's on rows 5-7, nothing elsewhere. */
  ghost predicate StartingBoard(m: map<Position, Piece>) {
    && (forall p :: p in m ==> StartSquare(p))
    && (forall p :: StartSquare(p) ==> p in m)
    && (forall p :: p in m ==> m[p].kind == Serf && m[p].team == (if p.y <= 2 then White else Black))
  }

  /** The initial setup on an empty board, read square by square. */
  lemma InitialLayoutSquares(m: map<Position, Piece>)
    requires InitialLayout(map[], m)
    ensures StartingBoard(m)
  {
    forall p: Position
      ensures p in m <==> StartSquare(p)
      ensures p in m ==> m[p].kind == Serf && m[p].team == (if p.y <= 2 then White else Black)
    {
      SideMembers(0, 2, p);
      SideMembers(5, 7, p);
    }
  }

  /** After both sides are filled, each side's squares hold that side's serfs; on an empty board, 12 each. */
  lemma BothSides(m0: map<Position, Piece>, m1: map<Position, Piece>, m2: map<Position, Piece>)
    requires Filled(m0, m1, SideSquares(0, 2), White)
    requires Filled(m1, m2, SideSquares(5, 7), Black)
    ensures InitialLayout(m0, m2)
    ensures m0 == map[] ==> StartingCounts(m2)
  {
    forall p | p in SideSquares(0, 2)
      ensures p !in SideSquares(5, 7)
    {
      SideMembers(0, 2, p);
      SideMembers(5, 7, p);
    }
    if m0 == map[] {
      InitialCounts(m0, m1, m2, 0, 2, 5, 7);
    }
  }
}
