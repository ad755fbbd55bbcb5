/**
 * `CLIENT_REQUEST_CODES`: the kinds of request a client sends, each with its
 * numeric code, and the name-to-constant table filled by the enum's static
 * initializer.
 */
module RequestCodes {

  datatype RequestCode =
    | Join | Disconnect | Ping
    | UserList | SendChat
    | HostBeginGame | HostAssignTeam
    | MovePiece | ResignGame
    | UnknownError

  /** `values()`: the constants in declaration order. */
  function Values(): (vs: seq<RequestCode>)
    ensures |vs| == 10
  {
    [Join, Disconnect, Ping, UserList, SendChat, HostBeginGame, HostAssignTeam, MovePiece,
     ResignGame, UnknownError]
  }

  /** `getCode`: the number each constant is declared with. */
  function Code(c: RequestCode): (n: int)
    ensures 1000 <= n < 2000
  {
    match c
    case Join => 1000
    case Disconnect => 1001
    case Ping => 1002
    case UserList => 1101
    case SendChat => 1102
    case HostBeginGame => 1200
    case HostAssignTeam => 1201
    case MovePiece => 1300
    case ResignGame => 1301
    case UnknownError => 1901
  }

  /** No two constants share a code. */
  lemma CodeInjective(a: RequestCode, b: RequestCode)
    requires Code(a) == Code(b)
    ensures a == b
  {
  }

  /** `name()`: the constant's identifier. */
  function Name(c: RequestCode): (s: string)
    ensures |s| >= 4
  {
    match c
    case Join => "JOIN"
    case Disconnect => "DISCONNECT"
    case Ping => "PING"
    case UserList => "USER_LIST"
    case SendChat => "SEND_CHAT"
    case HostBeginGame => "HOST_BEGIN_GAME"
    case HostAssignTeam => "HOST_ASSIGN_TEAM"
    case MovePiece => "MOVE_PIECE"
    case ResignGame => "RESIGN_GAME"
    case UnknownError => "UNKNOWN_ERROR"
  }

  /** Distinct constants have distinct names. */
  lemma NameInjective(a: RequestCode, b: RequestCode)
    requires Name(a) == Name(b)
    ensures a == b
  {
    match a
    case Join =>
    case Disconnect =>
    case Ping =>
    case UserList =>
    case SendChat =>
    case HostBeginGame =>
    case HostAssignTeam =>
    case MovePiece =>
    case ResignGame =>
    case UnknownError =>
  }

  /** What the static initializer leaves in `stringToEnumMap`: each name maps to its constant, and nothing else is there. */
  predicate IsNameTable(table: map<string, RequestCode>) {
    && (forall c :: Name(c) in table && table[Name(c)] == c)
    && (forall s :: s in table ==> Name(table[s]) == s)
  }

  /** Every constant is among `values()`. */
  lemma ValuesComplete(c: RequestCode)
    ensures c in Values()
  {
    match c
    case Join =>
    case Disconnect =>
    case Ping =>
    case UserList =>
    case SendChat =>
    case HostBeginGame =>
    case HostAssignTeam =>
    case MovePiece =>
    case ResignGame =>
    case UnknownError =>
  }

  /** The static initializer: `put(code.name(), code)` for every constant, in declaration order. */
  method BuildNameTable() returns (table: map<string, RequestCode>)
    ensures IsNameTable(table)
  {
    table := PutAll(Values());
    forall c
      ensures Name(c) in table && table[Name(c)] == c
    {
      ValuesComplete(c);
    }
  }

  /** The initializer's loop over a list of constants: each one is entered under its name. */
  method PutAll(vs: seq<RequestCode>) returns (table: map<string, RequestCode>)
    ensures forall c :: c in vs ==> Name(c) in table && table[Name(c)] == c
    ensures forall s :: s in table ==> Name(table[s]) == s
  {
    table := map[];
    var i := 0;
    while i < |vs|
      invariant 0 <= i <= |vs|
      invariant forall c :: c in vs[..i] ==> Name(c) in table && table[Name(c)] == c
      invariant forall s :: s in table ==> Name(table[s]) == s
    {
      var c := vs[i];
      forall d | d in vs[..i] && Name(d) == Name(c)
        ensures d == c
      {
        NameInjective(d, c);
      }
      table := table[Name(c) := c];
      assert vs[..i + 1] == vs[..i] + [c];
      i := i + 1;
    }
    assert vs[..i] == vs;
  }

  /** `fromString`: `getOrDefault(code, UNKNOWN_ERROR)` on the table. */
  function FromString(table: map<string, RequestCode>, s: string): (c: RequestCode)
    requires IsNameTable(table)
    ensures (exists d :: Name(d) == s) ==> Name(c) == s
    ensures (forall d :: Name(d) != s) ==> c == UnknownError
  {
    if s in table then table[s] else UnknownError
  }

  /** Looking up a constant's name gives the constant back. */
  lemma FromStringName(table: map<string, RequestCode>, c: RequestCode)
    requires IsNameTable(table)
    ensures FromString(table, Name(c)) == c
  {
  }

  /** The lookup is case-sensitive: lower-case names are not found and give UNKNOWN_ERROR. */
  lemma FromStringCaseSensitive(table: map<string, RequestCode>)
    requires IsNameTable(table)
    ensures FromString(table, "join") == UnknownError
    ensures FromString(table, "Move_Piece") == UnknownError
  {
    assert forall d :: Name(d) != "join" && Name(d) != "Move_Piece";
  }
}
