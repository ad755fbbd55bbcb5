/**
 * `SERVER_RESPONSE_CODES`: the kinds of message the server sends, each with
 * its numeric code, and the name-to-constant table filled by the enum's
 * static initializer.
 */
module ResponseCodes {

  datatype ResponseCode =
    | Success | Error | InvalidRequest
    | GameStateUpdate | GameStart | GameEnd | RoundUpdate
    | PlayerJoined | PlayerLeft | ClientList
    | MovePiece | RemovePiece
    | ChatMessage | Notification
    | RoleAssign

  /** `values()`: the constants in declaration order. */
  function Values(): (vs: seq<ResponseCode>)
    ensures |vs| == 15
  {
    [Success, Error, InvalidRequest, GameStateUpdate, GameStart, GameEnd, RoundUpdate,
     PlayerJoined, PlayerLeft, ClientList, MovePiece, RemovePiece, ChatMessage, Notification,
     RoleAssign]
  }

  /** `getCode`: the number each constant is declared with. */
  function Code(c: ResponseCode): (n: int)
    ensures 2000 <= n < 2600
  {
    match c
    case Success => 2000
    case Error => 2001
    case InvalidRequest => 2002
    case GameStateUpdate => 2100
    case GameStart => 2101
    case GameEnd => 2102
    case RoundUpdate => 2103
    case PlayerJoined => 2104
    case PlayerLeft => 2105
    case ClientList => 2106
    case MovePiece => 2505
    case RemovePiece => 2506
    case ChatMessage => 2400
    case Notification => 2401
    case RoleAssign => 2107
  }

  /** No two constants share a code. */
  lemma CodeInjective(a: ResponseCode, b: ResponseCode)
    requires Code(a) == Code(b)
    ensures a == b
  {
  }

  /** `name()` (and the default `toString()`): the constant's identifier. */
  function Name(c: ResponseCode): (s: string)
    ensures |s| >= 5
  {
    match c
    case Success => "SUCCESS"
    case Error => "ERROR"
    case InvalidRequest => "INVALID_REQUEST"
    case GameStateUpdate => "GAME_STATE_UPDATE"
    case GameStart => "GAME_START"
    case GameEnd => "GAME_END"
    case RoundUpdate => "ROUND_UPDATE"
    case PlayerJoined => "PLAYER_JOINED"
    case PlayerLeft => "PLAYER_LEFT"
    case ClientList => "CLIENT_LIST"
    case MovePiece => "MOVE_PIECE"
    case RemovePiece => "REMOVE_PIECE"
    case ChatMessage => "CHAT_MESSAGE"
    case Notification => "NOTIFICATION"
    case RoleAssign => "ROLE_ASSIGN"
  }

  /** Distinct constants have distinct names. */
  lemma NameInjective(a: ResponseCode, b: ResponseCode)
    requires Name(a) == Name(b)
    ensures a == b
  {
    match a
    case Success =>
    case Error =>
    case InvalidRequest =>
    case GameStateUpdate =>
    case GameStart =>
    case GameEnd =>
    case RoundUpdate =>
    case PlayerJoined =>
    case PlayerLeft =>
    case ClientList =>
    case MovePiece =>
    case RemovePiece =>
    case ChatMessage =>
    case Notification =>
    case RoleAssign =>
  }

  /** What the static initializer leaves in `stringToEnumMap`: each name maps to its constant, and nothing else is there. */
  predicate IsNameTable(table: map<string, ResponseCode>) {
    && (forall c :: Name(c) in table && table[Name(c)] == c)
    && (forall s :: s in table ==> Name(table[s]) == s)
  }

  /** Every constant is among `values()`. */
  lemma ValuesComplete(c: ResponseCode)
    ensures c in Values()
  {
    match c
    case Success =>
    case Error =>
    case InvalidRequest =>
    case GameStateUpdate =>
    case GameStart =>
    case GameEnd =>
    case RoundUpdate =>
    case PlayerJoined =>
    case PlayerLeft =>
    case ClientList =>
    case MovePiece =>
    case RemovePiece =>
    case ChatMessage =>
    case Notification =>
    case RoleAssign =>
  }

  /** The static initializer: `put(code.name(), code)` for every constant, in declaration order. */
  method BuildNameTable() returns (table: map<string, ResponseCode>)
    ensures IsNameTable(table)
  {
    table := PutAll(Values());
    forall c
      ensures Name(c) in table && table[Name(c)] == c
    {
      ValuesComplete(c);
    }
  }

  /** The initializer's loop over a list of constants: each one is entered under its name. */
  method PutAll(vs: seq<ResponseCode>) returns (table: map<string, ResponseCode>)
    ensures forall c :: c in vs ==> Name(c) in table && table[Name(c)] == c
    ensures forall s :: s in table ==> Name(table[s]) == s
  {
    table := map[];
    var i := 0;
    while i < |vs|
      invariant 0 <= i <= |vs|
      invariant forall c :: c in vs[..i] ==> Name(c) in table && table[Name(c)] == c
      invariant forall s :: s in table ==> Name(table[s]) == s
    {
      var c := vs[i];
      forall d | d in vs[..i] && Name(d) == Name(c)
        ensures d == c
      {
        NameInjective(d, c);
      }
      table := table[Name(c) := c];
      assert vs[..i + 1] == vs[..i] + [c];
      i := i + 1;
    }
    assert vs[..i] == vs;
  }

  /** `fromString`: `getOrDefault(code, ERROR)` on the table. */
  function FromString(table: map<string, ResponseCode>, s: string): (c: ResponseCode)
    requires IsNameTable(table)
    ensures (exists d :: Name(d) == s) ==> Name(c) == s
    ensures (forall d :: Name(d) != s) ==> c == Error
  {
    if s in table then table[s] else Error
  }

  /** Looking up a constant's name gives the constant back. */
  lemma FromStringName(table: map<string, ResponseCode>, c: ResponseCode)
    requires IsNameTable(table)
    ensures FromString(table, Name(c)) == c
  {
  }

  /** The lookup is case-sensitive: lower-case names are not found and give ERROR. */
  lemma FromStringCaseSensitive(table: map<string, ResponseCode>)
    requires IsNameTable(table)
    ensures FromString(table, "success") == Error
    ensures FromString(table, "Game_Start") == Error
  {
    assert forall d :: Name(d) != "success" && Name(d) != "Game_Start";
  }
}
