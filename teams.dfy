/** `PIECE_TEAM`: the two playing sides and the spectators, with signed values. */
module Teams {
  import opened Wrappers

  datatype Team = White | Black | Spectator

  /** `getValue`: +1 for White, -1 for Black, 0 for spectators. */
  function Value(t: Team): (v: int)
    ensures -1 <= v <= 1
    ensures v == 0 <==> t == Spectator
    ensures v > 0 <==> t == White
  {
    match t
    case White => 1
    case Black => -1
    case Spectator => 0
  }

  /** The two sides have opposite values, and the three values are distinct. */
  lemma ValuesOpposite()
    ensures Value(White) == -Value(Black) != 0
  {
  }

  lemma ValueInjective(s: Team, t: Team)
    requires Value(s) == Value(t)
    ensures s == t
  {
  }

  /** `name()`: the constant's identifier. */
  function Name(t: Team): (s: string)
    ensures |s| >= 5
  {
    match t
    case White => "WHITE"
    case Black => "BLACK"
    case Spectator => "SPECTATOR"
  }

  /** `PIECE_TEAM.valueOf(s)`: the constant named exactly `s`; any other string throws (None). */
  function ValueOf(s: string): (r: Option<Team>)
    ensures r.Some? ==> Name(r.value) == s
  {
    if s == "WHITE" then Some(White)
    else if s == "BLACK" then Some(Black)
    else if s == "SPECTATOR" then Some(Spectator)
    else None
  }

  /** `valueOf` inverts `name`, so distinct teams have distinct names. */
  lemma ValueOfName(t: Team)
    ensures ValueOf(Name(t)) == Some(t)
  {
  }

  lemma ValueOfCaseSensitive()
    ensures ValueOf("white") == None && ValueOf("Black") == None
  {
  }
}
