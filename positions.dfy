/**
 * `Position`: a square of the 8x8 board, with 0-based column `x` and row
 * `y`, and its algebraic text form ("A1" .. "H8").
 */
module Positions {
  import opened Wrappers
  import opened JavaInt
  import opened Vectors

  /** The board side the constructor checks against. */
  const BOARD_SIZE: int := 8

  /** `isValidCoordinate`. */
  predicate InBounds(v: int) {
    0 <= v < BOARD_SIZE
  }

  /** A `Position` wraps a vector that passed the constructor's bounds check. */
  type Position = v: Vector2i | InBounds(v.x) && InBounds(v.y) witness Vector2i(0, 0)

  /** The IllegalArgumentExceptions the constructor and `fromString` throw. */
  datatype PositionError =
    | InvalidX(x: int)      // "Invalid x position: ..."
    | InvalidY(y: int)      // "Invalid y position: ..."
    | InvalidString         // null or shorter than two characters
    | InvalidRow            // the rank is not an `int`

  /** `new Position(x, y)`: x is checked before y. */
  function NewPosition(x: int, y: int): (r: Result<Position, PositionError>)
    ensures r.Ok? <==> InBounds(x) && InBounds(y)
    ensures r.Ok? ==> r.value.x == x && r.value.y == y
    ensures !InBounds(x) ==> r == Err(InvalidX(x))
    ensures InBounds(x) && !InBounds(y) ==> r == Err(InvalidY(y))
  {
    if !InBounds(x) then Err(InvalidX(x))
    else if !InBounds(y) then Err(InvalidY(y))
    else Ok(Vector2i(x, y))
  }

  /** `new Position(Vector2i)`: the same checks on the vector's components. */
  function FromVector(v: Vector2i): (r: Result<Position, PositionError>)
    ensures r.Ok? <==> InBounds(v.x) && InBounds(v.y)
    ensures r.Ok? ==> r.value == v
  {
    NewPosition(v.x, v.y)
  }

  /** `equals`: same column and same row. */
  function Equals(p: Position, q: Position): (r: bool)
    ensures r <==> p == q
  {
    p.x == q.x && p.y == q.y
  }

  /** `hashCode`: `Objects.hash(x, y)`, that is 31 * (31 * 1 + x) + y. */
  function HashCode(p: Position): (h: int)
    ensures IsInt(h)
    ensures 961 <= h < 961 + 31 * BOARD_SIZE
  {
    Wrap(31 * Wrap(31 * 1 + p.x) + p.y)
  }

  /** Equal positions hash alike, and on the board distinct ones never collide. */
  lemma HashCodeAgreesWithEquals(p: Position, q: Position)
    ensures Equals(p, q) <==> HashCode(p) == HashCode(q)
  {
    if HashCode(p) == HashCode(q) {
      assert 31 * p.x + p.y == 31 * q.x + q.y;
    }
  }

  /** The column letter of `x`: 'A' + x. */
  function ColumnLetter(x: int): (c: char)
    requires InBounds(x)
    ensures 'A' <= c <= 'H'
  {
    ('A' as int + x) as char
  }

  /** `toString`: "%c%d" of the column letter and the 1-based row. */
  function ToString(p: Position): (s: string)
    ensures |s| == 2
    ensures s[0] == ColumnLetter(p.x)
    ensures '1' <= s[1] <= '8' && s[1] as int - '1' as int == p.y
  {
    [ColumnLetter(p.x)] + IntToString(p.y + 1)
  }

  lemma ToStringCorners()
    ensures ToString(Vector2i(0, 0)) == "A1"
    ensures ToString(Vector2i(7, 7)) == "H8"
  {
  }

  /** `Character.toUpperCase` on the ASCII letters; every other character is kept. */
  function ToUpper(c: char): (u: char)
    ensures 'a' <= c <= 'z' ==> u as int == c as int - 32
    ensures !('a' <= c <= 'z') ==> u == c
    ensures !('a' <= u <= 'z')
  {
    if 'a' <= c <= 'z' then (c as int - 32) as char else c
  }

  /**
   * `fromString`: the first character, upper-cased, is the column; the rest
   * is parsed by `Integer.parseInt` and one is subtracted (as a Java `int`)
   * to get the row; the constructor then checks both.
   */
  function FromString(input: Option<string>): (r: Result<Position, PositionError>)
    ensures input.None? ==> r == Err(InvalidString)
    ensures input.Some? && |input.value| < 2 ==> r == Err(InvalidString)
  {
    match input
    case None => Err(InvalidString)
    case Some(s) =>
      if |s| < 2 then Err(InvalidString)
      else
        var x := ToUpper(s[0]) as int - 'A' as int;
        match ParseInt(s[1..])
        case None => Err(InvalidRow)
        case Some(rank) => NewPosition(x, Wrap(rank - 1))
  }

  /** Parsing the text form of a position gives the position back. */
  lemma FromStringToString(p: Position)
    ensures FromString(Some(ToString(p))) == Ok(p)
  {
    var s := ToString(p);
    assert s[1..] == IntToString(p.y + 1);
    ParseIntToString(p.y + 1);
  }

  /** Distinct positions have distinct text forms. */
  lemma ToStringInjective(p: Position, q: Position)
    requires ToString(p) == ToString(q)
    ensures p == q
  {
    FromStringToString(p);
    FromStringToString(q);
  }

  /**
   * Exactly the strings of at least two characters whose upper-cased first
   * character is 'A'..'H' and whose rest parses to a rank 1..8 are accepted,
   * and they denote column (letter - 'A') and row (rank - 1).
   */
  lemma FromStringOk(s: string)
    ensures FromString(Some(s)).Ok? <==>
      |s| >= 2 && 'A' <= ToUpper(s[0]) <= 'H' &&
      ParseInt(s[1..]).Some? && 1 <= ParseInt(s[1..]).value <= 8
    ensures FromString(Some(s)).Ok? ==>
      FromString(Some(s)).value == Vector2i(ToUpper(s[0]) as int - 'A' as int, ParseInt(s[1..]).value - 1)
  {
    if |s| >= 2 && ParseInt(s[1..]).Some? {
      var rank := ParseInt(s[1..]).value;
      if rank == INT_MIN {
        WrapUnderflow(rank - 1);
      }
    }
  }

  /** A rank that is not an `int` is reported as an invalid row. */
  lemma FromStringBadRank(s: string)
    requires |s| >= 2 && ParseInt(s[1..]).None?
    ensures FromString(Some(s)) == Err(InvalidRow)
  {
  }

  /** The column letter is case-insensitive. */
  lemma FromStringCaseInsensitive(s: string)
    requires |s| >= 2
    ensures FromString(Some(s)) == FromString(Some([ToUpper(s[0])] + s[1..]))
  {
    var t := [ToUpper(s[0])] + s[1..];
    assert t[1..] == s[1..];
  }

  /** Squares off the board are rejected by the constructor's checks. */
  lemma FromStringOffBoard()
    ensures FromString(Some("I1")) == Err(InvalidX(8))
    ensures FromString(Some("A0")) == Err(InvalidY(-1))
    ensures FromString(Some("A9")) == Err(InvalidY(8))
  {
    assert "I1"[1..] == "1" && "A0"[1..] == "0" && "A9"[1..] == "9";
    assert DigitsValue("1") == 1 && DigitsValue("0") == 0 && DigitsValue("9") == 9;
  }

  /** A lower-case column letter names the same square. */
  lemma FromStringLowerCase()
    ensures FromString(Some("c4")) == FromString(Some("C4")) == Ok(Vector2i(2, 3))
  {
    assert "c4"[1..] == "4" && "C4"[1..] == "4";
    assert DigitsValue("4") == 4;
  }

  /** The rank may carry a sign or leading zeros, as `Integer.parseInt` allows. */
  lemma FromStringLenientRank()
    ensures FromString(Some("A+1")) == Ok(Vector2i(0, 0))
    ensures FromString(Some("B03")) == Ok(Vector2i(1, 2))
    ensures FromString(Some("A-1")) == Err(InvalidY(-2))
  {
    assert "A+1"[1..] == "+1" && "+1"[1..] == "1";
    assert "B03"[1..] == "03" && "03"[..1] == "0";
    assert "A-1"[1..] == "-1" && "-1"[1..] == "1";
    assert DigitsValue("1") == 1 && DigitsValue("0") == 0;
    assert DigitsValue("03") == 3;
  }
}
