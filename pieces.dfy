/**
 * `AbstractPiece`, `SerfPiece` and `KingPiece`. A piece never changes after
 * construction, so it is a value; its identity is the id drawn from the
 * counter.
 */
module Pieces {
  import opened JavaInt
  import opened Teams
  import opened Counter

  datatype PieceKind = Serf | King

  datatype Piece = Piece(id: int, team: Team, kind: PieceKind)

  /** `getDirection`: the team's value, +1 for White and -1 for Black. */
  function Direction(p: Piece): (d: int)
    ensures p.team == White ==> d == 1
    ensures p.team == Black ==> d == -1
    ensures p.team == Spectator ==> d == 0
  {
    Value(p.team)
  }

  /** The `AbstractPiece` constructor: the next counter value as id, the given team. */
  method NewPiece(team: Team, kind: PieceKind, counter: Incrementer) returns (p: Piece)
    requires counter.Valid()
    modifies counter
    ensures counter.Valid() && counter.i == Next(old(counter.i))
    ensures p == Piece(counter.i, team, kind)
  {
    var id := counter.Increment();
    p := Piece(id, team, kind);
  }

  /**
   * `promote`: a king is returned as it is and no id is used; a serf yields
   * a new king of the same team, which draws a fresh id.
   */
  method Promote(p: Piece, counter: Incrementer) returns (q: Piece)
    requires counter.Valid()
    modifies counter
    ensures counter.Valid()
    ensures p.kind == King ==> q == p && counter.i == old(counter.i)
    ensures p.kind == Serf ==> q == Piece(counter.i, p.team, King) && counter.i == Next(old(counter.i))
    ensures q.team == p.team && q.kind == King
    ensures p.kind == Serf && p.id <= old(counter.i) < INT_MAX ==> q.id > p.id
  {
    if p.kind == King {
      q := p;
    } else {
      q := NewPiece(p.team, King, counter);
    }
  }
}
