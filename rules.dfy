/**
 * The decisions the server takes before it changes anything: which of
 * `attemptMove`'s checks rejects a move, and what `handleReceivedMessage`
 * does with a decoded request.
 */
module ServerRules {
  import opened Wrappers
  import opened Teams
  import opened Positions
  import opened Pieces
  import opened ResponseCodes
  import opened ServerResponses
  import RequestCodes
  import opened ClientRequests
  import opened Roles

  /** An ERROR built by `create` with a title and a text. */
  function ErrorReply(title: string, text: string): ServerResponse {
    ServerResponse(Error, [title, text], None)
  }

  const NOT_ACTIVE: ServerResponse := ErrorReply("GameNotActiveError", "Game was not active when sending move.")
  const NOT_A_PLAYER: ServerResponse := ErrorReply("Not A Player", "You Arent a player! Just wait!")
  const NOT_YOUR_TURN: ServerResponse := ErrorReply("Wait For your turn!", "It wasnt yet your turn. wait for the other player to go!")
  const NO_PIECE: ServerResponse := ErrorReply("This Piece Doesnt Exist!", "You tried moving an empty piece...")
  const NOT_YOUR_PIECE: ServerResponse := ErrorReply("Not your piece!", "You dont own that piece....")
  const INVALID_MOVE: ServerResponse := ErrorReply("Invalid Move", "Something About the game didnt like your move... try again?")
  const MOVE_SUCCESS: ServerResponse := ServerResponse(Success, ["Move Success!", "You Made your move!"], None)

  /**
   * `attemptMove`'s checks in their order: a game must be active, the user
   * must be registered, its team must be the side to move, `from` must hold
   * a piece, the piece must be the requester's, and `canMakeMove` must hold.
   * `requester` is None for an unknown username, else the requester's team.
   */
  function MoveVerdict(active: bool, requester: Option<Team>, turn: Team, piece: Option<Piece>, legal: bool): (r: ServerResponse)
    ensures !active ==> r == NOT_ACTIVE
    ensures active && requester.None? ==> r == NOT_A_PLAYER
    ensures active && requester.Some? && requester.value != turn ==> r == NOT_YOUR_TURN
    ensures active && requester == Some(turn) && piece.None? ==> r == NO_PIECE
    ensures active && requester == Some(turn) && piece.Some? && piece.value.team != turn ==> r == NOT_YOUR_PIECE
    ensures active && requester == Some(turn) && piece.Some? && piece.value.team == turn && !legal ==> r == INVALID_MOVE
  {
    if !active then NOT_ACTIVE
    else if requester.None? then NOT_A_PLAYER
    else if requester.value != turn then NOT_YOUR_TURN
    else if piece.None? then NO_PIECE
    else if piece.value.team != requester.value then NOT_YOUR_PIECE
    else if !legal then INVALID_MOVE
    else MOVE_SUCCESS
  }

  /** A move succeeds exactly when every check passes; every rejection is an ERROR. */
  lemma MoveAcceptedIff(active: bool, requester: Option<Team>, turn: Team, piece: Option<Piece>, legal: bool)
    ensures var r := MoveVerdict(active, requester, turn, piece, legal);
      && (r.kind == Success <==>
          active && requester == Some(turn) && piece.Some? && piece.value.team == turn && legal)
      && (r.kind != Success ==> r.kind == Error)
  {
  }

  /** A spectator is always turned away as out of turn, since the side to move is never Spectator. */
  lemma SpectatorsCannotMove(requester: Option<Team>, turn: Team, piece: Option<Piece>, legal: bool)
    requires turn != Spectator && requester == Some(Spectator)
    ensures MoveVerdict(true, requester, turn, piece, legal) == NOT_YOUR_TURN
  {
  }

  /** What `handleReceivedMessage` does with one request. */
  datatype Action =
    | BroadcastParseError                   // UNKNOWN_ERROR
    | BroadcastUserList                     // USER_LIST
    | BroadcastChat(payload: seq<string>)   // SEND_CHAT
    | Reply(msg: ServerResponse)            // an ERROR to the sender only
    | BeginGame                             // HOST_BEGIN_GAME accepted
    | Resign(winner: Team)                  // RESIGN_GAME
    | Move(from: Position, to: Position)    // MOVE_PIECE with two squares
    | AssignTeam(player: string, team: Team) // HOST_ASSIGN_TEAM accepted
    | Ignore                                // JOIN, DISCONNECT, PING after the handshake
    | Throw                                 // a runtime exception: the connection closes

  const NOT_HOST: ServerResponse := ServerResponse(Error, ["Error: you are not the host"], Some("Error Message from server"))
  const NOT_ENOUGH_PLAYERS: ServerResponse :=
    ServerResponse(Error, ["Error: there are not enough players to start the game."], Some("Error message: not enough players"))
  const HOST_ERROR: ServerResponse := ServerResponse(Error, ["Host Error", "You are not the host."], Some("host error message."))

  /** `ValidateAsHOST` / `ValidateAsWhite` / `ValidateAsBlack`: the slot is filled and its username equals `name`. */
  predicate Holds(slot: Option<string>, name: Option<string>) {
    slot.Some? && slot == name
  }

  /**
   * `handleReceivedMessage`'s switch. `username` is the sender's, `names`
   * the slot holders' usernames and `userCount` the number of handlers.
   * Reading past the end of the payload, an unparsable square or an unknown
   * team name throws.
   */
  function Decide(req: ClientRequest, username: Option<string>, names: Names, userCount: nat): (a: Action)
    ensures req.kind == RequestCodes.UnknownError ==> a == BroadcastParseError
    ensures req.kind == RequestCodes.UserList ==> a == BroadcastUserList
    ensures req.kind in {RequestCodes.Join, RequestCodes.Disconnect, RequestCodes.Ping} ==> a == Ignore
    ensures a.BroadcastChat? ==> req.kind == RequestCodes.SendChat && a.payload == req.payload && |a.payload| >= 1
    ensures a.Move? ==>
      && req.kind == RequestCodes.MovePiece && |req.payload| >= 3
      && Positions.FromString(Some(req.payload[1])) == Ok(a.from)
      && Positions.FromString(Some(req.payload[2])) == Ok(a.to)
    ensures a.AssignTeam? ==>
      && req.kind == RequestCodes.HostAssignTeam && |req.payload| >= 3
      && Holds(names.host, Some(req.payload[0]))
      && a.player == req.payload[1] && ValueOf(req.payload[2]) == Some(a.team)
  {
    var p := req.payload;
    match req.kind
    case UnknownError => BroadcastParseError
    case UserList => BroadcastUserList
    case SendChat => if |p| == 0 then Throw else BroadcastChat(p)
    case HostBeginGame =>
      if |p| == 0 then Throw
      else if !Holds(names.host, Some(p[0])) then Reply(NOT_HOST)
      else if userCount < 2 then Reply(NOT_ENOUGH_PLAYERS)
      else BeginGame
    case ResignGame => Resign(if Holds(names.white, username) then Black else White)
    case MovePiece =>
      if |p| < 3 then Throw
      else
        var from := Positions.FromString(Some(p[1]));
        var to := Positions.FromString(Some(p[2]));
        if from.Ok? && to.Ok? then Move(from.value, to.value) else Throw
    case HostAssignTeam =>
      if |p| == 0 then Throw
      else if !Holds(names.host, Some(p[0])) then Reply(HOST_ERROR)
      else if |p| < 3 then Throw
      else
        var team := ValueOf(p[2]);
        if team.None? then Throw else AssignTeam(p[1], team.value)
    case Join => Ignore
    case Disconnect => Ignore
    case Ping => Ignore
  }

  /**
   * HOST_BEGIN_GAME starts the game only when the named user is the host
   * and at least two users are connected; otherwise the sender gets one of
   * two distinct errors.
   */
  lemma BeginGameRules(p: seq<string>, username: Option<string>, names: Names, userCount: nat)
    requires |p| >= 1
    ensures var a := Decide(ClientRequest(RequestCodes.HostBeginGame, p), username, names, userCount);
      && (a == BeginGame <==> Holds(names.host, Some(p[0])) && userCount >= 2)
      && (!Holds(names.host, Some(p[0])) ==> a == Reply(NOT_HOST))
      && (Holds(names.host, Some(p[0])) && userCount < 2 ==> a == Reply(NOT_ENOUGH_PLAYERS))
  {
  }

  /**
   * HOST_ASSIGN_TEAM whose first payload entry is not the host's username
   * is answered with an error and assigns nothing.
   */
  lemma AssignTeamNeedsHost(p: seq<string>, username: Option<string>, names: Names, userCount: nat)
    requires |p| >= 1 && !Holds(names.host, Some(p[0]))
    ensures Decide(ClientRequest(RequestCodes.HostAssignTeam, p), username, names, userCount) == Reply(HOST_ERROR)
  {
  }

  /**
   * The host checks read the name in the payload, not the sender's: any
   * sender that names the host passes them.
   */
  lemma HostCheckReadsPayload(p: seq<string>, sender: Option<string>, names: Names, userCount: nat)
    requires |p| >= 1 && names.host == Some(p[0]) && userCount >= 2
    ensures Decide(ClientRequest(RequestCodes.HostBeginGame, p), sender, names, userCount) == BeginGame
  {
  }

  /** RESIGN_GAME names Black the winner iff the sender holds White; Black and spectators hand the win to White. */
  lemma ResignWinner(p: seq<string>, username: Option<string>, names: Names, userCount: nat)
    ensures var a := Decide(ClientRequest(RequestCodes.ResignGame, p), username, names, userCount);
      && (a == Resign(Black) <==> Holds(names.white, username))
      && (!Holds(names.white, username) ==> a == Resign(White))
  {
  }

  /** MOVE_PIECE with two parsable squares becomes a move between them; the first payload entry is not read. */
  lemma MoveRequestSquares(sender: string, from: Position, to: Position, username: Option<string>, names: Names, userCount: nat)
    ensures Decide(ClientRequest(RequestCodes.MovePiece, [sender, Positions.ToString(from), Positions.ToString(to)]),
      username, names, userCount) == Move(from, to)
  {
    FromStringToString(from);
    FromStringToString(to);
  }

  /** A request whose payload is too short for its kind throws. */
  lemma ShortPayloadThrows(kind: RequestCodes.RequestCode, p: seq<string>, username: Option<string>, names: Names, userCount: nat)
    requires (kind in {RequestCodes.SendChat, RequestCodes.HostBeginGame, RequestCodes.HostAssignTeam} && p == [])
      || (kind == RequestCodes.MovePiece && |p| < 3)
    ensures Decide(ClientRequest(kind, p), username, names, userCount) == Throw
  {
  }
}
