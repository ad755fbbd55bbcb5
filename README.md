# OnlineCheckers server core, modelled in Dafny

OnlineCheckers is a networked checkers game. One server holds the authoritative game, and clients connect to it over sockets. This project models the server's core:

- **Values.** Board coordinates (`Position`, `Vector2i`) with their "A1".."H8" text form, the teams and their signed values, and the pieces with ids drawn from a counter.
- **Board and game.** The board (`BoardModel`, a sparse map updated in place) and the game state machine (`CheckersGameModel`): initial setup, `canMakeMove`, `makeMove` with capture and turn change, and win detection.
- **Server.** The connection registry of `CheckerNetworkService`: usernames, handlers, and the host / White / Black slots. Also its roster labels, game start and resignation, and the ordered rejection chain of `attemptMove`.
- **Connection handler.** The per-connection logic of `ClientHandlerThread`: the join handshake, idempotent close, the request dispatch and the guarded `sendServerResponse`.
- **Event bridge.** `ServerGameListener`, which turns the game's events into broadcasts.
- **Messages.** The message records `ServerResponse` and `ClientRequest`, and the two code enums with their name tables.

Java `int` arithmetic (wrap-around, `Integer.toString`, `Integer.parseInt`) is written out in `JavaInt`.

## How the source is represented

- **Immutable Java objects are datatypes.** Positions, vectors, pieces, teams, requests and responses are all values.
- **Objects updated in place are classes.** `BoardModel`, `CheckersGameModel`, the counter, `NetworkService` and `ClientHandler` are classes with `modifies` frames. Their methods are proved against specification functions (`Relocate`, `InitialLayout`, `JoinRoles`, `Unregistered`, `AssignedRole`, `MoveVerdict`, `Decide`, `Messages`, `Roster`).
- **Listeners become an event log.** The game appends each notification to an `events` log in emission order.
- **Output becomes a `sent` log.** What a connection writes to its socket is its `sent` sequence. A broadcast appends to the log of every registered handler that can still be written to.
- **The singleton counter is an explicit object.** `IncrementerSingleton` is an `Incrementer` passed by reference. Its lazily created static instance is `IncrementerHolder`.
- **Exceptions are values.** A `Result` or `Option` carries each exception the core can throw: a bad coordinate, a bad board size, a failed `movePiece`, a null type, or an empty payload read by `getPayloadAsStringSafe`.
- **Exceptions in request handling close the connection.** A runtime exception inside `handleReceivedMessage` is not caught by `run`, so its `finally` closes the connection. This is the `threw` result of `HandleReceivedMessage`.

## Behaviour kept as the code has it

Where the code's behaviour may surprise a reader, the model keeps it as written:

- **Roles.** The first joiner becomes both host and White, because the host slot and the colour slots are filled independently (`JoinOrder`).
- **Roster requests.** `broadcastMessage` takes a `sender` argument but never uses it, so the answer to USER_LIST reaches every connection, the sender included.
- **Unknown requests.** An UNKNOWN_ERROR request broadcasts a parse error to everyone. JOIN, DISCONNECT and PING after the handshake fall through to the switch's default case and are ignored.
- **Resigning.** RESIGN_GAME is accepted from anyone. Black wins only if the sender holds White, so a spectator who resigns hands the win to White (`ResignWinner`).
- **The host check.** The comment beside the check speaks of the sender not being the host, but the check compares the first payload entry with the host's name, not the sender's own name (`HostCheckReadsPayload`).
- **Spectators moving.** The "Not A Player" answer is given only for a username the server does not know. A registered spectator who tries to move is told it is not its turn (`SpectatorsCannotMove`).
- **Event order.** A simple move reports the turn change before the move, so clients see ROUND_UPDATE, MOVE_PIECE, ROUND_UPDATE. A capture reports the removal first, so clients see REMOVE_PIECE, MOVE_PIECE, ROUND_UPDATE (`SimpleMoveMessages`, `CaptureMessages`).
- **Winning.** A win is detected only after captures. Both `getWinner` and `makeMove` notify game-complete, so a winning capture broadcasts GAME_END twice (`CaptureMessages`).
- **Jumps.** `canMakeMove` asks only that the jumped square be occupied, so a jump over one's own piece is legal (`JumpLegalIffMidpointOccupied`).
- **Duplicate usernames.** A join under a taken username closes the newcomer, and the close removes the name's entry, which belongs to the original user (`DuplicateJoinDropsOriginal`).
- **Coordinates.** Coordinates are 0-based, although the `Position` constructor's comment calls them 1-based. The rank text may carry a sign or leading zeros, as `Integer.parseInt` accepts (`FromStringLenientRank`).
- **Safe payload read.** Despite its name, `getPayloadAsStringSafe` fails on an empty payload.

## Model

| member | source | states |
|---|---|---|
| JavaInt.Wrap | src/main/java/chkMVC/chModel/Math/Vector2i.java:13 | Java `int` addition wraps: the result is an `int`, equals the exact value when that fits, and differs from it by a multiple of 2^32 |
| JavaInt.IntToString | src/main/java/chkMVC/chModel/Checkers/Position.java:79 | the decimal text of an `int` is non-empty, starts with a digit exactly for non-negative values, and has no comma or space |
| JavaInt.ParseInt | src/main/java/chkMVC/chModel/Checkers/Position.java:94 | `Integer.parseInt` over ASCII digits: a result is always an `int` whose text starts with a sign or a digit; empty or sign-only text is rejected; a digit string within range denotes its decimal value |
| JavaInt.ParseIntToString | src/main/java/chkMVC/chModel/Checkers/Position.java:73-100 | parsing the text of any `int` gives the `int` back |
| JavaInt.IntToStringInjective | src/main/java/chkMVC/chModel/Math/Vector2i.java:17-19 | distinct `int`s print differently |
| Vectors.Add | src/main/java/chkMVC/chModel/Math/Vector2i.java:12-14 | `add` is componentwise with Java wrap-around: exact when the sums fit, congruent modulo 2^32 always |
| Vectors.ToString | src/main/java/chkMVC/chModel/Math/Vector2i.java:17-19 | the text is framed by parentheses |
| Vectors.ToStringInjective | src/main/java/chkMVC/chModel/Math/Vector2i.java:17-19 | the text determines the vector: distinct vectors print differently |
| Teams.Value | src/main/java/chkMVC/chModel/Checkers/PIECE_TEAM.java:6-18 | `getValue` is in -1..1; it is 0 exactly for SPECTATOR and positive exactly for WHITE |
| Teams.ValuesOpposite | src/main/java/chkMVC/chModel/Checkers/PIECE_TEAM.java:6-8 | WHITE's value is the negation of BLACK's, and non-zero |
| Teams.ValueInjective | src/main/java/chkMVC/chModel/Checkers/PIECE_TEAM.java:6-8 | no two teams share a value |
| Teams.ValueOf | src/main/java/chkNetwork/Server/ClientHandlerThread.java:203 | `PIECE_TEAM.valueOf` accepts exactly the constants' names |
| Teams.ValueOfName | src/main/java/chkNetwork/Server/ClientHandlerThread.java:203 | `valueOf(name(t))` is `t` for every team |
| Teams.ValueOfCaseSensitive | src/main/java/chkNetwork/Server/ClientHandlerThread.java:203 | names in the wrong case are rejected, so the request throws |
| Counter.Next | src/main/java/chkGameUtil/IncrementerSingleton.java:19-21 | `++i` on an `int`: one more below `Integer.MAX_VALUE`, wrapping to `Integer.MIN_VALUE` at it |
| Counter.IterateAdd | src/main/java/chkGameUtil/IncrementerSingleton.java:19-21 | k increments after j increments are j + k increments |
| Counter.IterateAdds | src/main/java/chkGameUtil/IncrementerSingleton.java:19-21 | k increments add exactly k while no overflow occurs |
| Counter.IterateIncreases | src/main/java/chkGameUtil/IncrementerSingleton.java:19-21 | values handed out before any overflow strictly increase, so ids are unique |
| Counter.Incrementer.constructor | src/main/java/chkGameUtil/IncrementerSingleton.java:6 | a new counter starts at 0 |
| Counter.Incrementer.Increment | src/main/java/chkGameUtil/IncrementerSingleton.java:19-21 | the stored value advances by `Next` and the new value is returned; below the maximum it is the old value plus one |
| Counter.Incrementer.GetValue | src/main/java/chkGameUtil/IncrementerSingleton.java:24-26 | returns the stored value, an `int` |
| Counter.IncrementerHolder.GetInstance | src/main/java/chkGameUtil/IncrementerSingleton.java:12-17 | the first call creates a counter at 0; every later call returns that same instance; the counter returned is always a valid `int` counter |
| Pieces.Direction | src/main/java/chkMVC/chModel/Checkers/Pieces/AbstractPiece.java:34-36 | WHITE pieces move +1 in y, BLACK pieces -1, and SPECTATOR pieces 0 |
| Pieces.NewPiece | src/main/java/chkMVC/chModel/Checkers/Pieces/AbstractPiece.java:21-24 | a new piece takes the counter's next value as its id, with the given team and kind |
| Pieces.Promote | src/main/java/chkMVC/chModel/Checkers/Pieces/SerfPiece.java:12-14 | promoting a serf makes a king of the same team with a fresh id, greater than the serf's id when the counter has not overflowed; a king promotes to itself without drawing an id |
| Positions.NewPosition | src/main/java/chkMVC/chModel/Checkers/Position.java:21-33 | a position is created exactly when both coordinates are in 0..7, holding them; an out-of-range x is reported before y |
| Positions.FromVector | src/main/java/chkMVC/chModel/Checkers/Position.java:42-44 | a vector converts exactly when both coordinates are on the board, to the same coordinates |
| Positions.Equals | src/main/java/chkMVC/chModel/Checkers/Position.java:53-63 | `equals` holds exactly for equal coordinates |
| Positions.HashCode | src/main/java/chkMVC/chModel/Checkers/Position.java:65-70 | `Objects.hash(x, y)` is an `int` in 961..1208 |
| Positions.HashCodeAgreesWithEquals | src/main/java/chkMVC/chModel/Checkers/Position.java:53-70 | on the board, two positions have equal hashes exactly when they are equal |
| Positions.ToString | src/main/java/chkMVC/chModel/Checkers/Position.java:72-80 | the text is two characters: the column letter `'A' + x` and the digit of `y + 1` |
| Positions.ToStringCorners | src/main/java/chkMVC/chModel/Checkers/Position.java:72-80 | (0,0) prints as "A1" and (7,7) as "H8" |
| Positions.ToUpper | src/main/java/chkMVC/chModel/Checkers/Position.java:88 | `Character.toUpperCase` on ASCII: lower-case letters move to upper case, other characters stay, and the result is never lower case |
| Positions.FromString | src/main/java/chkMVC/chModel/Checkers/Position.java:82-85 | a null or one-character text is rejected |
| Positions.FromStringToString | src/main/java/chkMVC/chModel/Checkers/Position.java:72-100 | parsing a position's text gives the position back |
| Positions.ToStringInjective | src/main/java/chkMVC/chModel/Checkers/Position.java:72-80 | distinct positions print differently |
| Positions.FromStringOk | src/main/java/chkMVC/chModel/Checkers/Position.java:82-100 | a text parses exactly when its rank parses as an `int` and the upper-cased column and rank minus one land on the board, and then to those coordinates |
| Positions.FromStringBadRank | src/main/java/chkMVC/chModel/Checkers/Position.java:93-97 | a rank that is not an `int` is reported as an invalid row |
| Positions.FromStringCaseInsensitive | src/main/java/chkMVC/chModel/Checkers/Position.java:88 | the column letter is read without regard to case |
| Positions.FromStringOffBoard | src/main/java/chkMVC/chModel/Checkers/Position.java:89-99 | off-board texts are rejected with the offending coordinate: "I1" for x, "A0" and "A9" for y |
| Positions.FromStringLowerCase | src/main/java/chkMVC/chModel/Checkers/Position.java:88 | "c4" and "C4" both denote (2,3) |
| Positions.FromStringLenientRank | src/main/java/chkMVC/chModel/Checkers/Position.java:94 | a signed or zero-padded rank is accepted as `parseInt` reads it |
| Board.Relocate | src/main/java/chkMVC/chModel/Checkers/BoardModel.java:85-86 | the moved piece is at the destination, the source is empty, and every other square is unchanged |
| Board.RelocateCount | src/main/java/chkMVC/chModel/Checkers/BoardModel.java:70-87 | moving onto an empty square keeps the number of pieces |
| Board.CreatePosition | src/main/java/chkMVC/chModel/Checkers/BoardModel.java:143-153 | succeeds exactly for on-board coordinates, else reports an invalid position |
| Board.BoardModel.constructor | src/main/java/chkMVC/chModel/Checkers/BoardModel.java:16-24 | a board of at least 8x8 starts empty with the given dimensions |
| Board.BoardModel.Create | src/main/java/chkMVC/chModel/Checkers/BoardModel.java:16-28 | creating a board fails exactly when a dimension is below 8, otherwise gives a fresh empty board of those dimensions |
| Board.BoardModel.PieceAt | src/main/java/chkMVC/chModel/Checkers/BoardModel.java:43-50 | the piece on a square is present exactly when the square is occupied |
| Board.BoardModel.IsOccupied | src/main/java/chkMVC/chModel/Checkers/BoardModel.java:53-55 | a square is occupied exactly when it holds a piece |
| Board.BoardModel.NumberOfPieces | src/main/java/chkMVC/chModel/Checkers/BoardModel.java:38-40 | the count is the number of occupied squares |
| Board.BoardModel.AddPiece | src/main/java/chkMVC/chModel/Checkers/BoardModel.java:58-60 | the piece is put on the square, replacing any occupant; the count grows by one exactly when the square was empty |
| Board.BoardModel.RemovePiece | src/main/java/chkMVC/chModel/Checkers/BoardModel.java:63-66 | the square is emptied; the count drops by one exactly when it was occupied |
| Board.BoardModel.MovePiece | src/main/java/chkMVC/chModel/Checkers/BoardModel.java:70-87 | a move fails, changing nothing, when from equals to, from is empty or to is occupied, in that order; otherwise the piece is relocated and the count is kept |
| Layout.TeamSquares | src/main/java/chkMVC/chModel/Checkers/CheckersGameModel.java:136-147 | the squares holding a team's pieces, as a subset of the occupied squares |
| Layout.SideMembers | src/main/java/chkMVC/chModel/Checkers/CheckersGameModel.java:51-62 | a side filled over rows s..e covers exactly the squares of those rows with x + y odd |
| Layout.SideCount | src/main/java/chkMVC/chModel/Checkers/CheckersGameModel.java:51-62 | that side covers 4 squares per row |
| Layout.SetupCounts | src/main/java/chkMVC/chModel/Checkers/CheckersGameModel.java:51-62 | filling a side over empty rows adds 4 pieces per row, all of its team, and leaves the other teams' squares alone |
| Layout.InitialCounts | src/main/java/chkMVC/chModel/Checkers/CheckersGameModel.java:43-48 | filling White's band and then Black's on an empty board gives 4 pieces per row of each band, one team each |
| Layout.InitialLayoutSquares | src/main/java/chkMVC/chModel/Checkers/CheckersGameModel.java:43-62 | the initial board has a serf exactly on each dark square of rows 0-2 (White) and 5-7 (Black) |
| Layout.BothSides | src/main/java/chkMVC/chModel/Checkers/CheckersGameModel.java:43-48 | setting up rows 0-2 for White and then rows 5-7 for Black gives the initial layout, with every other square unchanged; on an empty board, 24 pieces, 12 per team |
| Game.Flip | src/main/java/chkMVC/chModel/Checkers/CheckersGameModel.java:97 | the side to move after a simple move is never SPECTATOR and differs from the previous side |
| Game.FlipAlternates | src/main/java/chkMVC/chModel/Checkers/CheckersGameModel.java:97 | two flips return the turn to the same side |
| Game.Midpoint | src/main/java/chkMVC/chModel/Checkers/CheckersGameModel.java:83 | for a two-column jump, the jumped square's column lies strictly between from and to |
| Game.JumpedSquare | src/main/java/chkMVC/chModel/Checkers/CheckersGameModel.java:180-182 | the square `canMakeMove` tests is the square `makeMove` removes |
| Game.Completion | src/main/java/chkMVC/chModel/Checkers/CheckersGameModel.java:158-163 | the completion notification is emitted exactly when the game is over, naming the side to move |
| Game.JumpEvents | src/main/java/chkMVC/chModel/Checkers/CheckersGameModel.java:82-95 | a capture notifies piece-removed then move-made, then game-complete twice when the game is over |
| Game.CheckersGameModel.constructor | src/main/java/chkMVC/chModel/Checkers/CheckersGameModel.java:33-41 | White moves first; with initial setup the board gets the initial layout, other squares unchanged, and one board-update notification; without it nothing changes |
| Game.CheckersGameModel.SetupInitialBoard | src/main/java/chkMVC/chModel/Checkers/CheckersGameModel.java:43-48 | the board gains the initial layout, leaving every other square as it was, 12 pieces per team when it started empty, followed by one board-update notification |
| Game.CheckersGameModel.SetupBoardSideHelper | src/main/java/chkMVC/chModel/Checkers/CheckersGameModel.java:51-62 | every dark square of rows startRow..endRow receives a serf of the team; other squares are unchanged |
| Game.CheckersGameModel.FillNextRow | src/main/java/chkMVC/chModel/Checkers/CheckersGameModel.java:54-61 | the filled band grows by one row |
| Game.CheckersGameModel.FillRow | src/main/java/chkMVC/chModel/Checkers/CheckersGameModel.java:55-60 | every dark square of the row receives a serf of the team; other squares are unchanged |
| Game.CheckersGameModel.CanMakeMove | src/main/java/chkMVC/chModel/Checkers/CheckersGameModel.java:165-189 | a legal move goes from an occupied square to a different empty one, by a one-square or two-square diagonal step |
| Game.SimpleStepLegal | src/main/java/chkMVC/chModel/Checkers/CheckersGameModel.java:173-176 | a one-square diagonal step from an occupied square to an empty one is legal |
| Game.JumpLegalIffMidpointOccupied | src/main/java/chkMVC/chModel/Checkers/CheckersGameModel.java:178-185 | a two-square diagonal step is legal exactly when the jumped square is occupied, whoever owns it |
| Game.OtherStepsIllegal | src/main/java/chkMVC/chModel/Checkers/CheckersGameModel.java:187-188 | any other displacement is illegal |
| Game.LegalMoveMovable | src/main/java/chkMVC/chModel/Checkers/CheckersGameModel.java:165-168 | a legal move satisfies `movePiece`'s conditions, so it cannot fail |
| Game.CheckersGameModel.PiecesOfTeam | src/main/java/chkMVC/chModel/Checkers/CheckersGameModel.java:136-147 | lists exactly one piece per square of the team: alongside the list, the squares the pieces were taken from, pairwise distinct, all of the team, and as many as the team has squares, so each piece is listed as often as it stands on a team square; every listed piece is of the team |
| Game.CheckersGameModel.IsGameOver | src/main/java/chkMVC/chModel/Checkers/CheckersGameModel.java:131-134 | the game is over exactly when one team has no pieces left |
| Game.CheckersGameModel.GetWinner | src/main/java/chkMVC/chModel/Checkers/CheckersGameModel.java:158-163 | a winner exists exactly when the game is over; it is the side to move, and the completion notification is emitted then |
| Game.CheckersGameModel.MakeMove | src/main/java/chkMVC/chModel/Checkers/CheckersGameModel.java:65-103 | rejects a move of an empty square or another team's piece, changing nothing; throws on a move `movePiece` refuses; a capture relocates the piece, removes the jumped one and keeps the turn; a simple move relocates the piece and passes the turn, with the notifications in source order |
| Game.CheckersGameModel.FinishJump | src/main/java/chkMVC/chModel/Checkers/CheckersGameModel.java:82-94 | after the jumping piece lands, the jumped square is emptied and the capture notifications follow, including game-complete when a team is out of pieces |
| Game.CheckersGameModel.RemoveJumped | src/main/java/chkMVC/chModel/Checkers/CheckersGameModel.java:83-90 | the jumped square is emptied, and piece-removed then move-made are notified |
| Game.CheckersGameModel.SetCurrentTurn | src/main/java/chkMVC/chModel/Checkers/CheckersGameModel.java:153-156 | the turn is set and a turn-change is notified |
| Game.CheckersGameModel.UpdateNewTurn | src/main/java/chkMVC/chModel/Checkers/CheckersGameModel.java:210-214 | the turn is set and a turn-change is notified |
| Game.CheckersGameModel.ApplyServerConfirmedMove | src/main/java/chkMVC/chModel/Checkers/CheckersGameModel.java:191-198 | moves the piece as `movePiece` does, then notifies a board update; a refused move changes nothing |
| Game.CheckersGameModel.ApplyServerRemovePiece | src/main/java/chkMVC/chModel/Checkers/CheckersGameModel.java:200-208 | empties the square and notifies a board update |
| ResponseCodes.Code | src/main/java/chkNetwork/SERVER_RESPONSE_CODES.java:9-47 | every code is in 2000..2599 |
| ResponseCodes.CodeInjective | src/main/java/chkNetwork/SERVER_RESPONSE_CODES.java:9-38 | no two constants share a code |
| ResponseCodes.NameInjective | src/main/java/chkNetwork/SERVER_RESPONSE_CODES.java:9-38 | no two constants share a name |
| ResponseCodes.ValuesComplete | src/main/java/chkNetwork/SERVER_RESPONSE_CODES.java:9-38 | `values()` lists every constant |
| ResponseCodes.BuildNameTable | src/main/java/chkNetwork/SERVER_RESPONSE_CODES.java:50-57 | the static initializer leaves a table mapping each name to its constant and nothing else |
| ResponseCodes.PutAll | src/main/java/chkNetwork/SERVER_RESPONSE_CODES.java:54-56 | after the loop, every listed constant is found under its name, and every entry maps a name to its own constant |
| ResponseCodes.FromString | src/main/java/chkNetwork/SERVER_RESPONSE_CODES.java:60-62 | a constant's name gives that constant; any other text gives ERROR |
| ResponseCodes.FromStringName | src/main/java/chkNetwork/SERVER_RESPONSE_CODES.java:50-62 | looking up a constant's name returns the constant |
| ResponseCodes.FromStringCaseSensitive | src/main/java/chkNetwork/SERVER_RESPONSE_CODES.java:60-62 | lower-case or mixed-case names fall back to ERROR |
| RequestCodes.Code | src/main/java/chkNetwork/CLIENT_REQUEST_CODES.java:9-36 | every code is in 1000..1999 |
| RequestCodes.CodeInjective | src/main/java/chkNetwork/CLIENT_REQUEST_CODES.java:9-26 | no two constants share a code |
| RequestCodes.NameInjective | src/main/java/chkNetwork/CLIENT_REQUEST_CODES.java:9-26 | no two constants share a name |
| RequestCodes.ValuesComplete | src/main/java/chkNetwork/CLIENT_REQUEST_CODES.java:9-26 | `values()` lists every constant |
| RequestCodes.BuildNameTable | src/main/java/chkNetwork/CLIENT_REQUEST_CODES.java:39-46 | the static initializer leaves a table mapping each name to its constant and nothing else |
| RequestCodes.PutAll | src/main/java/chkNetwork/CLIENT_REQUEST_CODES.java:43-45 | after the loop, every listed constant is found under its name, and every entry maps a name to its own constant |
| RequestCodes.FromString | src/main/java/chkNetwork/CLIENT_REQUEST_CODES.java:49-51 | a constant's name gives that constant; any other text gives UNKNOWN_ERROR |
| RequestCodes.FromStringName | src/main/java/chkNetwork/CLIENT_REQUEST_CODES.java:39-51 | looking up a constant's name returns the constant |
| RequestCodes.FromStringCaseSensitive | src/main/java/chkNetwork/CLIENT_REQUEST_CODES.java:49-51 | wrong-case names fall back to UNKNOWN_ERROR |
| ServerResponses.NewResponse | src/main/java/chkNetwork/Server/ServerResponse.java:50-57 | a null type is rejected; otherwise the fields are kept, and a null payload becomes empty |
| ServerResponses.Create | src/main/java/chkNetwork/Server/ServerResponse.java:76-79 | like the constructor, with no raw text |
| ServerResponses.PayloadAsStringSafe | src/main/java/chkNetwork/Server/ServerResponse.java:25-27 | the first payload entry when there is one; an empty payload fails |
| ServerResponses.RawText | src/main/java/chkNetwork/Server/ServerResponse.java:71-74 | a present raw text is shown as-is |
| ServerResponses.ToString | src/main/java/chkNetwork/Server/ServerResponse.java:71-74 | the text is the type's name, then ": ", then the raw text |
| ServerResponses.ToStringInjective | src/main/java/chkNetwork/Server/ServerResponse.java:71-74 | the text determines the type and the shown raw text |
| ServerResponses.ToStringNullAmbiguous | src/main/java/chkNetwork/Server/ServerResponse.java:71-74 | a missing raw text prints the same as the raw text "null" |
| ClientRequests.NewRequest | src/main/java/chkNetwork/Client/ClientRequest.java:27-32 | a null type is rejected; otherwise the fields are kept, and a null payload becomes empty |
| ClientRequests.NewRequestFields | src/main/java/chkNetwork/Client/ClientRequest.java:27-42 | the getters return what the constructor was given |
| GameListener.EventMessages | src/main/java/chkNetwork/Server/ServerGameListener.java:21-74 | each notification yields at most two broadcasts; a board update yields none; a move is followed by a ROUND_UPDATE naming the side to move |
| GameListener.MoveEndsGame | src/main/java/chkNetwork/Server/ServerGameListener.java:21-32 | a capture's notifications reset the server's game exactly when the game is over; a simple move's never do |
| GameListener.Messages | src/main/java/chkNetwork/Server/ServerGameListener.java:21-74 | a run of notifications yields at most two broadcasts each |
| GameListener.MessagesAppend | src/main/java/chkNetwork/Server/ServerGameListener.java:21-74 | the broadcasts of two runs of notifications are the broadcasts of each, in order |
| GameListener.MessagesSnoc | src/main/java/chkNetwork/Server/ServerGameListener.java:21-74 | one more notification appends its own broadcasts |
| GameListener.SimpleMoveMessages | src/main/java/chkNetwork/Server/ServerGameListener.java:34-62 | a simple move broadcasts ROUND_UPDATE, MOVE_PIECE, ROUND_UPDATE |
| GameListener.CompletionMessages | src/main/java/chkNetwork/Server/ServerGameListener.java:21-32 | game-complete broadcasts GAME_END once per notification, so twice for a win |
| GameListener.CaptureMessages | src/main/java/chkNetwork/Server/ServerGameListener.java:21-74 | a capture broadcasts REMOVE_PIECE, MOVE_PIECE, ROUND_UPDATE, then GAME_END twice when the game is over |
| GameListener.MoveMessageParses | src/main/java/chkNetwork/Server/ServerGameListener.java:39-41 | the squares in a MOVE_PIECE broadcast parse back to the move's squares |
| GameListener.TeamMessagesParse | src/main/java/chkNetwork/Server/ServerGameListener.java:22-60 | the team in a ROUND_UPDATE or GAME_END broadcast parses back to the team |
| Roles.JoinRoles | src/main/java/chkNetwork/Server/CheckerNetworkService.java:233-252 | a newcomer takes the host slot if it is empty, and independently White if empty, else Black if empty |
| Roles.JoinLetters | src/main/java/chkNetwork/Server/CheckerNetworkService.java:233-252 | the newcomer is sent "H" when it became host, then exactly one of "W", "B", "S" |
| Roles.JoinLettersMatchRoles | src/main/java/chkNetwork/Server/CheckerNetworkService.java:233-252 | the colour letter sent is "W" or "B" exactly when the newcomer took that slot, and "S" when it took neither |
| Roles.EmptyRegistry | src/main/java/chkNetwork/Server/CheckerNetworkService.java:20-36 | a new service has no clients, no handlers and empty slots |
| Roles.Registered | src/main/java/chkNetwork/Server/CheckerNetworkService.java:145-150 | a registration records the handler under its name and adds it to the handlers |
| Roles.JoinOrder | src/main/java/chkNetwork/Server/CheckerNetworkService.java:233-252 | the first joiner becomes host and White, the second Black, later ones spectators |
| Roles.Released | src/main/java/chkNetwork/Server/CheckerNetworkService.java:188-201 | the slots the handler held become empty; the others are untouched |
| Roles.ReleasePromotesNobody | src/main/java/chkNetwork/Server/CheckerNetworkService.java:188-201 | releasing never fills a slot with a different handler |
| Roles.Unregistered | src/main/java/chkNetwork/Server/CheckerNetworkService.java:155-167 | the entry under the handler's username is removed, whoever it belongs to; the handler is removed and its slots released |
| Roles.UnregisterStranger | src/main/java/chkNetwork/Server/CheckerNetworkService.java:155-175 | unregistering a nameless stranger changes nothing and broadcasts nothing |
| Roles.DuplicateJoinDropsOriginal | src/main/java/chkNetwork/Server/CheckerNetworkService.java:155-167 | closing a duplicate joiner removes the original user's name entry, while the original handler stays |
| Roles.RegisterThenUnregister | src/main/java/chkNetwork/Server/CheckerNetworkService.java:138-167 | joining and then leaving under a fresh name restores the name table and handler set |
| Roles.AssignedRole | src/main/java/chkNetwork/Server/CheckerNetworkService.java:308-324 | assigning a colour puts the named user's handler in that slot, or leaves the slot empty for an unknown user; a spectator assignment changes nothing |
| Roles.RequesterTeam | src/main/java/chkNetwork/Server/CheckerNetworkService.java:376-385 | a handler moves as White exactly when it holds White, as Black exactly when it holds Black but not White |
| Roles.Label | src/main/java/chkNetwork/Server/CheckerNetworkService.java:269-282 | a roster entry starts with the username and grows by the role tags it holds |
| Roles.HostAndWhiteLabel | src/main/java/chkNetwork/Server/CheckerNetworkService.java:269-282 | the first joiner is listed as "name (Host) (White)" |
| Roles.BlackAndHostLabel | src/main/java/chkNetwork/Server/CheckerNetworkService.java:269-282 | the Black holder who is also host is listed as "name (Black) (Host)" |
| Roles.PlainLabel | src/main/java/chkNetwork/Server/CheckerNetworkService.java:269-282 | a user with no role is listed by bare name |
| Roles.RosterAdd | src/main/java/chkNetwork/Server/CheckerNetworkService.java:261-287 | one more user adds its own entry to the roster |
| Roles.RosterSize | src/main/java/chkNetwork/Server/CheckerNetworkService.java:261-287 | the roster has at most one entry per user |
| ServerRules.MoveVerdict | src/main/java/chkNetwork/Server/CheckerNetworkService.java:358-410 | the checks reject, in order: no active game, unknown user, out of turn, empty square, another team's piece, illegal move |
| ServerRules.MoveAcceptedIff | src/main/java/chkNetwork/Server/CheckerNetworkService.java:358-417 | a move succeeds exactly when every check passes; every rejection is an ERROR |
| ServerRules.SpectatorsCannotMove | src/main/java/chkNetwork/Server/CheckerNetworkService.java:373-390 | a registered spectator is always told it is not its turn |
| ServerRules.Decide | src/main/java/chkNetwork/Server/ClientHandlerThread.java:142-213 | the action for each request type: parse-error and user-list broadcasts, chat, host-checked begin and assign, resign, move with two parsed squares; JOIN, DISCONNECT and PING are ignored |
| ServerRules.BeginGameRules | src/main/java/chkNetwork/Server/ClientHandlerThread.java:252-273 | a game is begun exactly when the named user is host and two or more users are connected, else the sender gets the matching error |
| ServerRules.AssignTeamNeedsHost | src/main/java/chkNetwork/Server/ClientHandlerThread.java:186-197 | an assignment not naming the host is answered with an error |
| ServerRules.HostCheckReadsPayload | src/main/java/chkNetwork/Server/ClientHandlerThread.java:254-269 | any sender naming the host in the payload passes the host check |
| ServerRules.ResignWinner | src/main/java/chkNetwork/Server/ClientHandlerThread.java:275-285 | Black wins a resignation exactly when the sender holds White; otherwise White wins |
| ServerRules.MoveRequestSquares | src/main/java/chkNetwork/Server/ClientHandlerThread.java:168-179 | a MOVE_PIECE request carrying two squares' texts becomes a move between them |
| ServerRules.ShortPayloadThrows | src/main/java/chkNetwork/Server/ClientHandlerThread.java:142-213 | a request whose payload is too short for its type throws |
| Server.HolderName | src/main/java/chkNetwork/Server/CheckerNetworkService.java:295-305 | an empty slot has no holder name; a filled one has its handler's username |
| Server.NewGame | src/main/java/chkNetwork/Server/CheckerNetworkService.java:338-339 | a new game on a fresh board, White to move, set up with the initial layout |
| Server.ListOf | src/main/java/chkNetwork/Server/ClientHandlerThread.java:226 | the roster list holds each entry of the set exactly once |
| Server.LabelAll | src/main/java/chkNetwork/Server/CheckerNetworkService.java:261-287 | the labels built are exactly the roster of the registered usernames |
| Server.LabelOf | src/main/java/chkNetwork/Server/CheckerNetworkService.java:269-282 | builds one user's roster entry |
| Server.ClientHandler.constructor | src/main/java/chkNetwork/Server/ClientHandlerThread.java:42-45 | a new handler is running, with no username, no output and nothing sent |
| Server.ClientHandler.SendServerResponse | src/main/java/chkNetwork/Server/ClientHandlerThread.java:52-61 | a message is recorded only while the handler runs and has an output; nothing else about the connection changes |
| Server.ClientHandler.CloseConnection | src/main/java/chkNetwork/Server/ClientHandlerThread.java:116-138 | only the first close acts: it stops the handler, unsets the output and unregisters it; the roster broadcast goes to those remaining; the game is dropped when nobody is left |
| Server.ClientHandler.Handshake | src/main/java/chkNetwork/Server/ClientHandlerThread.java:68-84 | a first request other than a JOIN with a name closes the connection silently; a JOIN under a taken name closes it after the roster broadcast; a fresh name registers the handler, which receives its role letters and the roster |
| Server.ClientHandler.HandleReceivedMessage | src/main/java/chkNetwork/Server/ClientHandlerThread.java:142-213 | carries out the action chosen for the request: the roles change only by an assignment, errors go to the sender alone, broadcasts reach every connection, an assignment tells the old holder "S" and the new one its letter and then broadcasts the roster unless it throws, begin activates a game, resign drops it, a move follows `attemptMove`; it throws exactly when the request or the assignment does |
| Server.ClientHandler.HandleUnknownError | src/main/java/chkNetwork/Server/ClientHandlerThread.java:215-219 | every connection is sent the parse-error message |
| Server.ClientHandler.HandleUserListRequest | src/main/java/chkNetwork/Server/ClientHandlerThread.java:222-235 | every connection is sent the roster under the user-list text |
| Server.ClientHandler.HandleChatRequest | src/main/java/chkNetwork/Server/ClientHandlerThread.java:238-249 | every connection is sent a CHAT_MESSAGE carrying the whole request payload, with the first payload entry as its raw text |
| Server.ClientHandler.HandleMove | src/main/java/chkNetwork/Server/ClientHandlerThread.java:168-184 | a rejected move is answered to the sender only; an accepted move is made |
| Server.ClientHandler.Receive | src/main/java/chkNetwork/Server/ClientHandlerThread.java:88-107 | a request that throws closes the connection; otherwise the handler stays registered |
| Server.ClientHandler.Run | src/main/java/chkNetwork/Server/ClientHandlerThread.java:68-109 | after the handshake and the requests, the connection is closed and unregistered |
| Server.ClientHandler.Serve | src/main/java/chkNetwork/Server/ClientHandlerThread.java:88-93 | the loop keeps the handler registered while it runs and never adds handlers |
| Server.NetworkService.constructor | src/main/java/chkNetwork/Server/CheckerNetworkService.java:20-36 | a new service has an empty registry and no game |
| Server.NetworkService.ResetAuthGameModel | src/main/java/chkNetwork/Server/CheckerNetworkService.java:53-59 | the game is dropped and marked inactive; registrations are unchanged |
| Server.NetworkService.BroadcastMessage | src/main/java/chkNetwork/Server/CheckerNetworkService.java:215-229 | every registered connection that can be written to receives the message |
| Server.NetworkService.ConnectedUsernamesWithRoles | src/main/java/chkNetwork/Server/CheckerNetworkService.java:261-287 | the roster is the labels of the registered usernames |
| Server.NetworkService.BroadcastUserListUpdate | src/main/java/chkNetwork/Server/CheckerNetworkService.java:204-212 | the roster is broadcast to every registered connection |
| Server.NetworkService.StartGame | src/main/java/chkNetwork/Server/CheckerNetworkService.java:330-354 | a second start changes nothing; a first start creates the initial game with White to move and broadcasts GAME_START |
| Server.NetworkService.InstallGame | src/main/java/chkNetwork/Server/CheckerNetworkService.java:338-346 | the new game, set up with White to move, becomes the active one |
| Server.NetworkService.EndGameDueToResignation | src/main/java/chkNetwork/Server/CheckerNetworkService.java:432-449 | if a game is active, everyone gets GAME_END naming the winner; the game is then dropped |
| Server.NetworkService.AssignRole | src/main/java/chkNetwork/Server/CheckerNetworkService.java:308-328 | the slot change of `AssignedRole`; the previous holder is told "S" and the new one its letter; throws exactly for a colour and an unknown user, otherwise broadcasts the roster |
| Server.NetworkService.ReassignColour | src/main/java/chkNetwork/Server/CheckerNetworkService.java:312-324 | the colour slot moves to the named user's handler, telling the old holder "S" and the new one its letter |
| Server.NetworkService.DemoteHolder | src/main/java/chkNetwork/Server/CheckerNetworkService.java:313-314 | the current holder of the slot, if any, is told it is now a spectator |
| Server.NetworkService.PromotePlayer | src/main/java/chkNetwork/Server/CheckerNetworkService.java:315-316 | the named user's handler takes the slot and is told its letter; an unknown user empties the slot and throws |
| Server.NetworkService.AttemptMove | src/main/java/chkNetwork/Server/CheckerNetworkService.java:358-420 | replies with the verdict of the checks in order; a rejection changes nothing; an accepted move is made as `makeMove` does, and its notifications are broadcast in source order; a winning capture drops the game |
| Server.NetworkService.PerformMove | src/main/java/chkNetwork/Server/CheckerNetworkService.java:411 | an accepted move's board change and broadcasts, and the reset after a win |
| Server.NetworkService.ApplyMove | src/main/java/chkNetwork/Server/CheckerNetworkService.java:411 | `makeMove` of a legal move by the side to move: the model's move effect, with the capture or simple-move notifications |
| Server.NetworkService.DeliverEvents | src/main/java/chkNetwork/Server/ServerGameListener.java:21-74 | every connection receives the broadcasts of the notifications in order; the game is dropped exactly when one of them is game-complete |
| Server.NetworkService.DeliverEvent | src/main/java/chkNetwork/Server/ServerGameListener.java:21-74 | one notification's broadcasts reach every connection; game-complete drops the game |
| Server.NetworkService.ReleaseRoles | src/main/java/chkNetwork/Server/CheckerNetworkService.java:188-201 | the registry is `Released`: the handler's slots are emptied |
| Server.NetworkService.AssignRoles | src/main/java/chkNetwork/Server/CheckerNetworkService.java:233-252 | the registry gains the newcomer's roles, and the newcomer is sent its role letters |
| Server.NetworkService.Deregister | src/main/java/chkNetwork/Server/CheckerNetworkService.java:155-167 | the registry becomes `Unregistered`, reporting whether anything was removed |
| Server.NetworkService.UnregisterClient | src/main/java/chkNetwork/Server/CheckerNetworkService.java:155-185 | the registry becomes `Unregistered`; the roster is broadcast exactly when something was removed; when nobody is left the game is dropped |
| Server.NetworkService.RegisterClient | src/main/java/chkNetwork/Server/CheckerNetworkService.java:138-153 | a taken name closes the newcomer and unregisters its name's entry; a fresh one registers it with its roles; the roster is broadcast either way |
| Server.NetworkService.AddClient | src/main/java/chkNetwork/Server/CheckerNetworkService.java:145-152 | a fresh name is registered, the newcomer gets its role letters then the roster, and everyone else the roster |
| Server.NetworkService.Enroll | src/main/java/chkNetwork/Server/CheckerNetworkService.java:145-150 | the registry becomes `Registered` and the newcomer gets its role letters |

## Left out

- Sockets, JSON encoding and decoding (Gson), logging and console output are not modelled. A request reaches the model already decoded as a `ClientRequest`, and a response is recorded in the connection's `sent` log instead of being written out. The `toString` of a response is modelled; the JSON text is not.
- Threads and `synchronized` are not modelled. Each service method runs as one atomic step, and the interleaving of handler threads is not captured.
- The server's accept loop (`CheckerNetworkService.run`, `start`, `stop`, `acceptSocketAndStartThread`) is not modelled. The model starts from a constructed handler. `StartServer.java` and the client side (`ClientModel`, `ApplicationController`, the GUI) are not part of this model.
- `getPort` and `getUserCount` are trivial reads. The user count appears as the size of `handlers` in `Decide`.
- `BoardModel.printBoard`, `BoardModel.toString` and the plain getters are not modelled: they have no effect on the game. `getAllPieces` returns the live map in the source; the model's board-update event carries a snapshot, and nothing the server sends depends on it.
- `ClientHandlerThread.handleMovePieceRequest`, `CheckersGameModel.checkJump` and `CheckersGameModel.isValidPosition` are not modelled: nothing calls them.
- The game's listener list (`addListener`, `notifyGameListeners`) is replaced by the `events` log. The server delivers a move's notifications after `makeMove` returns, in emission order. The board-update notification the constructor emits reaches no listener, because the server adds its listener after construction; `onBoardUpdate` sends nothing anyway.
- Java `null` strings and payload entries are not modelled, except where the source tests for them: a null username, a null type, a null raw text, and a null input to `Position.fromString`.
- A read or write failure on the socket, or a client that goes away, ends the request sequence given to `Run`.
- Roster order (HashSet iteration) is left unspecified. The broadcast list holds each entry exactly once, in some order.
- The order in which a broadcast visits connections is not modelled, since each connection has its own log.
- Game.CheckersGameModel.SetupInitialBoard: states where the 24 pieces go and their teams, but not which ids they draw from the counter, only that the counter stays a valid `int` counter.
- Game.CheckersGameModel.constructor: as for SetupInitialBoard, piece ids are not stated.
- Game.CheckersGameModel.SetupBoardSideHelper: as for SetupInitialBoard, piece ids are not stated.
- Game.CheckersGameModel.FillRow: as for SetupInitialBoard, piece ids are not stated.
- Server.NewGame: as for SetupInitialBoard, piece ids are not stated.
- Server.ClientHandler.CloseConnection: unsets the output before unregistering, where the source unsets it after. Nothing is written to a stopped handler in either order, so no log differs.
- Server.ClientHandler.Run: states only that the connection ends closed and unregistered. What each request does is stated by `Handshake`, `Receive` and `HandleReceivedMessage`.
- Server.ClientHandler.Serve: states only the registration invariant of the loop. What each request does is stated by `Receive`.
- Server.ClientHandler.HandleReceivedMessage: for begin, resign and move, states the game state but not the broadcasts. The broadcasts are stated by `StartGame`, `EndGameDueToResignation` and `AttemptMove`, which it calls.
- JavaInt.ParseInt: reads only the ASCII digits '0'..'9'. `Integer.parseInt` also accepts the other Unicode decimal digits (those for which `Character.digit(c, 10)` is not negative), such as '\uFF13'; the model rejects a rank written with them.
- Positions.FromString: inherits the ASCII-only rank from `JavaInt.ParseInt`, so a square such as "A\uFF13" is rejected where the source accepts it. Strings are sequences of characters, not of UTF-16 units, so a first character outside the Basic Multilingual Plane is reported as an invalid column here and as an invalid row by the source.
- Vectors.ToString: states the framing only. That the text determines the vector is `ToStringInjective`.
