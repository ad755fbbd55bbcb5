/**
 * The server side: `CheckerNetworkService`, which keeps the registry of
 * connected users, their roles and the authoritative game, and
 * `ClientHandlerThread`, one per connection, which performs the join
 * handshake and dispatches each request. Every service method is one
 * atomic step; what a connection writes to its socket is its `sent` log.
 */
module Server {
  import opened Wrappers
  import opened Teams
  import opened Positions
  import opened Counter
  import opened Pieces
  import opened Board
  import opened Game
  import opened Layout
  import opened ResponseCodes
  import opened ServerResponses
  import opened ClientRequests
  import RequestCodes
  import opened GameListener
  import opened Roles
  import opened ServerRules

  /** The handler in a slot, as a set (empty for a Java `null`). */
  function Occupant(slot: Option<ClientHandler>): set<ClientHandler> {
    if slot.Some? then {slot.value} else {}
  }

  /** `getHostusername` and friends: the slot holder's username, or `null` for an empty slot. */
  function HolderName(slot: Option<ClientHandler>): (n: Option<string>)
    reads Occupant(slot)
    ensures slot.None? ==> n.None?
    ensures slot.Some? ==> n == slot.value.username
  {
    if slot.Some? then slot.value.username else None
  }

  /** A list holding each element of `s` exactly once, as `new ArrayList<>(set)` builds it. */
  predicate ListsOnce(xs: seq<string>, s: set<string>) {
    && (forall i, j :: 0 <= i < j < |xs| ==> xs[i] != xs[j])
    && (forall x :: x in xs ==> x in s)
    && (forall x :: x in s ==> x in xs)
  }

  /** A CLIENT_LIST message carrying `roster` once per entry. */
  predicate IsUserList(m: ServerResponse, roster: set<string>, raw: Option<string>) {
    m.kind == ClientList && m.raw == raw && ListsOnce(m.payload, roster)
  }

  /** The ROLE_ASSIGN message `assignRoles` sends for one letter. */
  function RoleMessage(letter: string): ServerResponse {
    ServerResponse(RoleAssign, [letter], None)
  }

  /** The ROLE_ASSIGN messages for a run of letters, in order. */
  function RoleMessages(letters: seq<string>): (ms: seq<ServerResponse>)
    ensures |ms| == |letters|
    ensures forall i :: 0 <= i < |ms| ==> ms[i] == RoleMessage(letters[i])
  {
    if letters == [] then [] else [RoleMessage(letters[0])] + RoleMessages(letters[1..])
  }

  /** What `assignRole` sends the previous holder of a colour. */
  const SPECTATE_MESSAGE: ServerResponse := ServerResponse(RoleAssign, ["S"], Some("assign as spectator."))

  /** What `assignRole` sends the new holder of a colour. */
  function ColourMessage(letter: string): ServerResponse {
    ServerResponse(RoleAssign, [letter], Some("assign new one as color"))
  }

  /** The broadcast that announces a new game: White moves first. */
  const GAME_START_MESSAGE: ServerResponse := ServerResponse(GameStart, [Teams.Name(White)], None)

  /** The broadcast of `endGameDueToResignation`. */
  function ResignationMessage(winner: Team): ServerResponse {
    ServerResponse(GameEnd, [Teams.Name(winner)], Some("Game ended due to resignation."))
  }

  /** The ROLE_ASSIGN letter of a colour. */
  function Letter(team: Team): string {
    if team == White then "W" else if team == Black then "B" else "S"
  }

  /** The game's state after an accepted move from the given squares and turn, as `makeMove` leaves it. */
  ghost predicate MoveEffect(g: CheckersGameModel, from: Position, to: Position, m0: map<Position, Piece>, t: Team)
    reads g, g.board
    requires from in m0
  {
    if Abs(to.x - from.x) == 2 then
      g.board.squares == Relocate(m0, from, to) - {Midpoint(from, to)} && g.currentTurn == t
    else
      g.board.squares == Relocate(m0, from, to) && g.currentTurn == Flip(t)
  }

  /** A game as `startGame` creates it: 8 by 8, White to move, 12 serfs a side on their starting squares. */
  ghost predicate FreshlySetUp(g: CheckersGameModel)
    reads g, g.board
  {
    && g.currentTurn == White && g.board.width == 8 && g.board.height == 8
    && StartingBoard(g.board.squares) && StartingCounts(g.board.squares)
  }

  /** `new CheckersGameModel(new BoardModel(8))`: a fresh 8 by 8 game, White to move, set up. */
  method NewGame(counter: Incrementer) returns (g: CheckersGameModel)
    requires counter.Valid()
    modifies counter
    ensures fresh(g) && fresh(g.board) && counter.Valid()
    ensures g.currentTurn == White && FreshlySetUp(g)
  {
    var board := new BoardModel(8, 8);
    g := new CheckersGameModel(board, true, counter);
    InitialLayoutSquares(g.board.squares);
  }

  /** What everyone receives for a one-square move: the new side to move, the move, the new side to move again. */
  function StepBroadcasts(from: Position, to: Position, next: Team): seq<ServerResponse> {
    [RoundMessage(next), MoveMessage(from, to), RoundMessage(next)]
  }

  /** What everyone receives for a capture: the removal, the move, the side still to move, and GAME_END twice on a win. */
  function CaptureBroadcasts(from: Position, to: Position, over: bool, turn: Team): seq<ServerResponse> {
    [RemoveMessage(Midpoint(from, to)), MoveMessage(from, to), RoundMessage(turn)] +
    (if over then [GameEndMessage(turn), GameEndMessage(turn)] else [])
  }

  /** What `handleUnknownError` broadcasts. */
  const PARSE_ERROR_MESSAGE: ServerResponse := ServerResponse(Error, [], Some("Error parsing file."))

  /** The text `handleUserListRequest` attaches to the roster it broadcasts. */
  const USER_LIST_TEXT: string := "USER LIST RESPONSE!!!!!!"

  /** What `handleChatRequest` broadcasts: the whole payload, its first entry as the text. */
  function ChatMessageOf(p: seq<string>): ServerResponse
    requires |p| >= 1
  {
    ServerResponse(ChatMessage, p, Some(p[0]))
  }

  /** `new ArrayList<>(set)`: the elements in some order, each once. */
  method ListOf(s: set<string>) returns (xs: seq<string>)
    ensures ListsOnce(xs, s) && |xs| == |s|
  {
    xs := [];
    var todo := s;
    while todo != {}
      invariant todo <= s
      invariant forall i, j :: 0 <= i < j < |xs| ==> xs[i] != xs[j]
      invariant forall x :: x in xs <==> x in s - todo
      invariant |xs| + |todo| == |s|
      decreases |todo|
    {
      var x :| x in todo;
      assert x !in xs;
      xs := xs + [x];
      todo := todo - {x};
    }
  }

  /** The roster loop of `getConnectedUsernamesWithRoles`, over the usernames in some order. */
  method LabelAll(users: set<string>, names: Names) returns (labels: set<string>)
    ensures labels == Roster(users, names)
  {
    labels := {};
    var todo := users;
    ghost var done: set<string> := {};
    while todo != {}
      invariant done + todo == users && done !! todo
      invariant labels == Roster(done, names)
      decreases |todo|
    {
      var u :| u in todo;
      var entry := LabelOf(u, names);
      RosterAdd(done, u, names);
      labels := labels + {entry};
      done := done + {u};
      todo := todo - {u};
    }
  }

  /** One label of the roster, built suffix by suffix. */
  method LabelOf(u: string, names: Names) returns (entry: string)
    ensures entry == Label(u, names)
  {
    entry := u;
    if names.black == Some(u) {
      entry := entry + " (Black)";
    }
    if names.host == Some(u) {
      entry := entry + " (Host)";
    }
    if names.white == Some(u) {
      entry := entry + " (White)";
    }
  }

  class ClientHandler {
    const service: NetworkService
    /** Set from the JOIN request, `null` (None) before it. */
    var username: Option<string>
    /** `clientRunning`. */
    var running: bool
    /** Whether the output stream `out` is set. */
    var outOpen: bool
    /** Every response written to the socket, oldest first. */
    var sent: seq<ServerResponse>

    /** A handler for a freshly accepted socket. */
    constructor (service: NetworkService)
      ensures this.service == service
      ensures username.None? && running && !outOpen && sent == []
    {
      this.service := service;
      username := None;
      running := true;
      outOpen := false;
      sent := [];
    }

    /** The guard of `sendServerResponse`. */
    predicate CanSend()
      reads this
    {
      outOpen && running
    }

    /** The part of `ms` that reaches this connection: all of it while it can be written to, else nothing. */
    function Reach(ms: seq<ServerResponse>): seq<ServerResponse>
      reads this
    {
      if CanSend() then ms else []
    }

    /** The connection state that sending leaves alone. */
    function Conn(): (Option<string>, bool, bool)
      reads this
    {
      (username, running, outOpen)
    }

    /**
     * `closeConnection`: only the first call has an effect. It stops the
     * handler, unsets the output and unregisters the handler from the
     * service. The source unsets the output after unregistering; nothing is
     * written to a stopped handler either way.
     */
    method CloseConnection() returns (ghost update: Option<ServerResponse>)
      requires service.Valid() && service.LiveBut(this)
      requires !running ==> !outOpen && this !in service.handlers
      modifies this, service, service.handlers
      ensures service.Valid() && service.LiveBut(null)
      ensures !running && !outOpen && username == old(username) && sent == old(sent)
      ensures this !in service.handlers
      ensures !old(running) ==> outOpen == old(outOpen) && update.None? && unchanged(service)
      ensures old(running) ==>
        && service.Registration() == Unregistered(old(service.Registration()), this, username)
        && (update.Some? <==> RemovedSomething(old(service.Registration()), this, username))
      ensures update.Some? ==> IsUserList(update.value, Roster(service.clients.Keys, service.SlotNames()), None)
      ensures forall x :: x in service.handlers ==>
        x.sent == old(x.sent) + x.Reach(if update.Some? then [update.value] else []) && x.Conn() == old(x.Conn())
      ensures service.game == (if old(running) && service.handlers == {} then null else old(service.game))
      ensures service.gameActive == (old(service.gameActive) && !(old(running) && service.handlers == {}))
    {
      if !running {
        update := None;
        return;
      }
      running := false;
      outOpen := false;
      update := service.UnregisterClient(this);
    }

    /**
     * The start of `run`: the output is set, and the first request must be a
     * JOIN carrying a username (reading the name of an empty payload
     * throws); otherwise the connection is closed without registering.
     */
    method Handshake(first: ClientRequest) returns (ghost update: Option<ServerResponse>)
      requires service.Valid() && service.LiveBut(null)
      requires running && !outOpen && username.None? && this !in service.handlers
      modifies this, service, service.handlers
      ensures service.Valid() && service.LiveBut(null)
      ensures first.kind != RequestCodes.Join || first.payload == [] ==>
        && !running && username.None? && sent == old(sent) && update.None?
        && service.Registration() == old(service.Registration())
        && (forall x :: x in service.handlers ==> x.sent == old(x.sent))
      ensures first.kind == RequestCodes.Join && first.payload != [] ==>
        && username == Some(first.payload[0])
        && update.Some?
        && IsUserList(update.value, Roster(service.clients.Keys, service.SlotNames()), None)
      ensures first.kind == RequestCodes.Join && first.payload != [] && first.payload[0] in old(service.clients) ==>
        && !running && sent == old(sent)
        && service.Registration() == Unregistered(old(service.Registration()), this, username)
        && (forall x :: x in service.handlers ==> x.sent == old(x.sent) + [update.value])
      ensures first.kind == RequestCodes.Join && first.payload != [] && first.payload[0] !in old(service.clients) ==>
        && running && this in service.handlers
        && service.Registration() == Registered(old(service.Registration()), this, first.payload[0])
        && sent == old(sent) + RoleMessages(JoinLetters(old(service.Registration()))) + [update.value]
        && (forall x :: x in old(service.handlers) ==> x.sent == old(x.sent) + [update.value])
      ensures running ==> this in service.handlers
      ensures !running ==> !outOpen && this !in service.handlers
      ensures service.handlers <= old(service.handlers) + {this}
      ensures service.game == old(service.game) || service.game == null
    {
      outOpen := true;
      if first.kind != RequestCodes.Join || first.payload == [] {
        UnregisterStranger(service.Registration(), this);
        update := CloseConnection();
        return;
      }
      username := Some(first.payload[0]);
      update := service.RegisterClient(this, first.payload[0]);
    }

    /**
     * `handleReceivedMessage`: what `Decide` chooses for the request is
     * carried out; a request that throws changes nothing, except that an
     * assignment of an unknown player has already emptied the slot.
     */
    method HandleReceivedMessage(req: ClientRequest) returns (threw: bool, ghost update: Option<ServerResponse>)
      requires service.Valid() && service.LiveBut(null) && this in service.handlers
      modifies this, service, service.handlers, service.counter, service.GameObjects()
      ensures service.Valid() && service.LiveBut(null)
      ensures var a := old(Decide(req, username, service.SlotNames(), |service.handlers|));
        && (threw <==> a == Throw || (a.AssignTeam? && AssignThrows(old(service.Registration()), a.player, a.team)))
        && (a.AssignTeam? ==> service.Registration() == AssignedRole(old(service.Registration()), a.player, a.team))
        && (!a.AssignTeam? ==> service.Registration() == old(service.Registration()))
      ensures var a := old(Decide(req, username, service.SlotNames(), |service.handlers|));
        a == Ignore || a == Throw ==>
          && service.game == old(service.game) && service.gameActive == old(service.gameActive)
          && forall x :: x in service.handlers ==> x.sent == old(x.sent)
      ensures var a := old(Decide(req, username, service.SlotNames(), |service.handlers|));
        a.Reply? ==>
          && service.game == old(service.game) && service.gameActive == old(service.gameActive)
          && sent == old(sent) + [a.msg]
          && forall x :: x in service.handlers && x != this ==> x.sent == old(x.sent)
      ensures var a := old(Decide(req, username, service.SlotNames(), |service.handlers|));
        a == BroadcastParseError ==> forall x :: x in service.handlers ==> x.sent == old(x.sent) + [PARSE_ERROR_MESSAGE]
      ensures var a := old(Decide(req, username, service.SlotNames(), |service.handlers|));
        a.BroadcastChat? ==> forall x :: x in service.handlers ==> x.sent == old(x.sent) + [ChatMessageOf(a.payload)]
      ensures var a := old(Decide(req, username, service.SlotNames(), |service.handlers|));
        a == BroadcastUserList ==> forall x :: x in service.handlers ==>
          && |x.sent| == |old(x.sent)| + 1 && x.sent[..|old(x.sent)|] == old(x.sent)
          && IsUserList(x.sent[|old(x.sent)|], Roster(service.clients.Keys, service.SlotNames()), Some(USER_LIST_TEXT))
      ensures var a := old(Decide(req, username, service.SlotNames(), |service.handlers|));
        a == BeginGame ==> service.gameActive && (!old(service.gameActive) ==> FreshlySetUp(service.game))
      ensures var a := old(Decide(req, username, service.SlotNames(), |service.handlers|));
        a.Resign? ==> service.game == null && !service.gameActive
      ensures var a := old(Decide(req, username, service.SlotNames(), |service.handlers|));
        a.AssignTeam? ==>
          && service.game == old(service.game) && service.gameActive == old(service.gameActive)
          && (update.Some? <==> !threw)
          && (update.Some? ==> IsUserList(update.value, Roster(service.clients.Keys, service.SlotNames()), None))
          && forall x :: x in service.handlers ==>
            x.sent == old(x.sent)
              + (if Some(x) == old(service.ColourSlot(a.team)) then [SPECTATE_MESSAGE] else [])
              + (if Some(x) == service.ColourSlot(a.team) then [ColourMessage(Letter(a.team))] else [])
              + (if update.Some? then [update.value] else [])
      ensures var a := old(Decide(req, username, service.SlotNames(), |service.handlers|));
        a.Move? ==>
          var r := old(service.MoveCheck(username.value, a.from, a.to));
          && (r.kind != Success ==> sent == old(sent) + [r] && forall x :: x in service.handlers && x != this ==> x.sent == old(x.sent))
          && (r.kind == Success ==> MoveEffect(old(service.game), a.from, a.to, old(service.game.board.squares), old(service.game.currentTurn)))
      ensures service.game == old(service.game) || service.game == null || (fresh(service.game) && fresh(service.game.board))
    {
      var a := Decide(req, username, service.SlotNames(), |service.handlers|);
      threw := false;
      update := None;
      match a {
        case BroadcastParseError => HandleUnknownError();
        case BroadcastUserList => ghost var m := HandleUserListRequest();
        case BroadcastChat(p) => HandleChatRequest(p);
        case Reply(m) => service.Tell(this, m);
        case BeginGame => service.StartGame();
        case Resign(w) => service.EndGameDueToResignation(w);
        case Move(from, to) => HandleMove(from, to);
        case AssignTeam(player, team) =>
          threw, update := service.AssignRole(player, team);
        case Ignore =>
        case Throw => threw := true;
      }
    }

    /** `handleUnknownError`: everyone is told a request could not be parsed. */
    method HandleUnknownError()
      requires service.Valid() && service.LiveBut(null)
      modifies service.handlers
      ensures service.Valid() && service.LiveBut(null)
      ensures forall x :: x in service.handlers ==> x.sent == old(x.sent) + [PARSE_ERROR_MESSAGE]
    {
      service.BroadcastAll([PARSE_ERROR_MESSAGE]);
    }

    /** `handleUserListRequest`: the roster, with its own text, to everyone (the sender included). */
    method HandleUserListRequest() returns (ghost m: ServerResponse)
      requires service.Valid() && service.LiveBut(null)
      modifies service.handlers
      ensures service.Valid() && service.LiveBut(null)
      ensures IsUserList(m, Roster(service.clients.Keys, service.SlotNames()), Some(USER_LIST_TEXT))
      ensures forall x :: x in service.handlers ==> x.sent == old(x.sent) + [m]
    {
      var roster := service.ConnectedUsernamesWithRoles();
      var users := ListOf(roster);
      var r := ServerResponse(ClientList, users, Some(USER_LIST_TEXT));
      service.BroadcastAll([r]);
      service.SendingKeepsNames();
      m := r;
    }

    /** `handleChatRequest`: the payload goes to everyone (the sender included), its first entry as the text. */
    method HandleChatRequest(p: seq<string>)
      requires |p| >= 1
      requires service.Valid() && service.LiveBut(null)
      modifies service.handlers
      ensures service.Valid() && service.LiveBut(null)
      ensures forall x :: x in service.handlers ==> x.sent == old(x.sent) + [ChatMessageOf(p)]
    {
      service.BroadcastAll([ChatMessageOf(p)]);
    }

    /** The MOVE_PIECE branch: the move is attempted under this handler's username, and only a rejection is sent back. */
    method HandleMove(from: Position, to: Position)
      requires service.Valid() && service.LiveBut(null) && this in service.handlers
      modifies service, service.handlers, service.GameObjects()
      ensures service.Valid() && service.LiveBut(null)
      ensures service.Registration() == old(service.Registration())
      ensures var r := old(service.MoveCheck(username.value, from, to));
        && (r.kind != Success ==> sent == old(sent) + [r] && forall x :: x in service.handlers && x != this ==> x.sent == old(x.sent))
        && (r.kind != Success ==> service.game == old(service.game) && service.gameActive == old(service.gameActive))
        && (r.kind == Success ==> MoveEffect(old(service.game), from, to, old(service.game.board.squares), old(service.game.currentTurn)))
      ensures service.game == old(service.game) || service.game == null
    {
      var r := service.AttemptMove(username.value, from, to);
      if r.kind != Success {
        service.Tell(this, r);
      }
    }

    /** One pass of `run`'s loop: the request is handled, and one that throws closes the connection. */
    method Receive(req: ClientRequest) returns (threw: bool)
      requires service.Valid() && service.LiveBut(null) && this in service.handlers
      modifies this, service, service.handlers, service.counter, service.GameObjects()
      ensures service.Valid() && service.LiveBut(null)
      ensures var a := old(Decide(req, username, service.SlotNames(), |service.handlers|));
        threw <==> a == Throw || (a.AssignTeam? && AssignThrows(old(service.Registration()), a.player, a.team))
      ensures !threw ==> running && this in service.handlers
      ensures threw ==> !running && !outOpen && this !in service.handlers
      ensures service.handlers <= old(service.handlers)
      ensures service.game == old(service.game) || service.game == null || (fresh(service.game) && fresh(service.game.board))
    {
      ghost var handled;
      threw, handled := HandleReceivedMessage(req);
      if threw {
        ghost var update := CloseConnection();
      }
    }

    /**
     * `run`: the handshake, then one request after another while the
     * handler runs, and finally `closeConnection`. `rest` stands for the
     * lines the socket delivers after the first.
     */
    method Run(first: ClientRequest, rest: seq<ClientRequest>)
      requires service.Valid() && service.LiveBut(null)
      requires running && !outOpen && username.None? && this !in service.handlers
      modifies this, service, service.handlers, service.counter, service.GameObjects()
      ensures service.Valid() && service.LiveBut(null)
      ensures !running && !outOpen && this !in service.handlers
    {
      ghost var update := Handshake(first);
      Serve(rest);
      update := CloseConnection();
    }

    /** The loop of `run`: requests are handled in order until one closes the connection or none is left. */
    method Serve(rest: seq<ClientRequest>)
      requires service.Valid() && service.LiveBut(null)
      requires running ==> this in service.handlers
      requires !running ==> !outOpen && this !in service.handlers
      modifies this, service, service.handlers, service.counter, service.GameObjects()
      ensures service.Valid() && service.LiveBut(null)
      ensures running ==> this in service.handlers
      ensures !running ==> !outOpen && this !in service.handlers
      ensures service.handlers <= old(service.handlers)
      ensures service.game == null || service.game == old(service.game) || (fresh(service.game) && fresh(service.game.board))
    {
      var i := 0;
      while running && i < |rest|
        invariant 0 <= i <= |rest|
        invariant service.Valid() && service.LiveBut(null)
        invariant running ==> this in service.handlers
        invariant !running ==> !outOpen && this !in service.handlers
        invariant service.handlers <= old(service.handlers)
        invariant service.game == null || service.game == old(service.game) || (fresh(service.game) && fresh(service.game.board))
      {
        var threw := Receive(rest[i]);
        i := i + 1;
      }
    }

    /** `sendServerResponse`: written only while the output is set and the handler runs. */
    method SendServerResponse(m: ServerResponse)
      modifies this
      ensures sent == old(sent) + Reach([m])
      ensures Conn() == old(Conn())
    {
      if outOpen && running {
        sent := sent + [m];
      }
    }
  }

  class NetworkService {
    /** The piece-id counter the game's setup draws from. */
    const counter: Incrementer
    /** `clients`: username to handler. */
    var clients: map<string, ClientHandler>
    /** `clientHandlers`. */
    var handlers: set<ClientHandler>
    var host: Option<ClientHandler>
    var white: Option<ClientHandler>
    var black: Option<ClientHandler>
    /** `authGameModel`. */
    var game: CheckersGameModel?
    /** `isGameActive`. */
    var gameActive: bool

    /** A service with nobody connected and no game. */
    constructor (counter: Incrementer)
      requires counter.Valid()
      ensures this.counter == counter
      ensures Registration() == EmptyRegistry() && game == null && !gameActive
      ensures Valid() && LiveBut(null)
    {
      this.counter := counter;
      clients := map[];
      handlers := {};
      host := None;
      white := None;
      black := None;
      game := null;
      gameActive := false;
    }

    /** The game and its board, when there is a game. */
    function GameObjects(): set<object>
      reads this
    {
      if game == null then {} else {game, game.board}
    }

    /** The registry fields as a value. */
    function Registration(): Registry<ClientHandler>
      reads this
    {
      Registry(clients, handlers, host, white, black)
    }

    /** The usernames of the host, White and Black. */
    function SlotNames(): (n: Names)
      reads this, Occupant(host), Occupant(white), Occupant(black)
      ensures n == Names(HolderName(host), HolderName(white), HolderName(black))
    {
      Names(HolderName(host), HolderName(white), HolderName(black))
    }

    /**
     * What the service keeps true between steps: registered handlers belong
     * to this service and carry a username, each name maps to a registered
     * handler of that name, the slots hold registered handlers, a game
     * exists exactly while one is active, and a side (never Spectator) is
     * to move.
     */
    ghost predicate Valid()
      reads this, handlers, counter, GameObjects()
    {
      && counter.Valid()
      && (forall h :: h in handlers ==> h.service == this && h.username.Some?)
      && (forall u :: u in clients ==> clients[u] in handlers && clients[u].username == Some(u))
      && SlotsRegistered()
      && (gameActive <==> game != null)
      && (game != null ==> game.currentTurn != Spectator)
    }

    /** The slots hold registered handlers. */
    predicate SlotsRegistered()
      reads this
    {
      Occupant(host) <= handlers && Occupant(white) <= handlers && Occupant(black) <= handlers
    }

    /** Every registered handler other than `skip` can still be written to. */
    ghost predicate LiveBut(skip: ClientHandler?)
      reads this, handlers
    {
      forall h :: h in handlers && h != skip ==> h.CanSend()
    }

    /** Writing to the connections leaves the service's invariant intact. */
    twostate lemma SendingKeepsValid()
      requires old(Valid())
      requires unchanged(this) && unchanged(counter) && unchanged(GameObjects())
      requires forall x :: x in handlers ==> x.Conn() == old(x.Conn())
      ensures Valid()
    {
    }

    /** Writing to the connections leaves the slot holders' names as they were. */
    twostate lemma SendingKeepsNames()
      requires old(SlotsRegistered())
      requires unchanged(this)
      requires forall x :: x in handlers ==> x.Conn() == old(x.Conn())
      ensures SlotNames() == old(SlotNames())
    {
      forall slot | slot in {host, white, black} && slot.Some?
        ensures slot.value.username == old(slot.value.username)
      {
        assert slot.value.Conn() == old(slot.value.Conn());
      }
    }

    /** Writing to the connections leaves every connection as writable as it was. */
    twostate lemma SendingKeepsLive(skip: ClientHandler?)
      requires old(LiveBut(skip))
      requires unchanged(this)
      requires forall x :: x in handlers ==> x.Conn() == old(x.Conn())
      ensures LiveBut(skip)
    {
    }

    /** `resetAuthGameModel`: no game, not active. */
    method ResetAuthGameModel()
      requires Valid()
      modifies this
      ensures Valid() && game == null && !gameActive
      ensures Registration() == old(Registration())
    {
      game := null;
      gameActive := false;
    }

    /** `broadcastMessage`: every registered handler that can be written to gets `m`. */
    method BroadcastMessage(m: ServerResponse)
      modifies handlers
      ensures forall h :: h in handlers ==> h.sent == old(h.sent) + h.Reach([m]) && h.Conn() == old(h.Conn())
    {
      var todo := handlers;
      while todo != {}
        invariant todo <= handlers
        invariant forall h :: h in handlers && h !in todo ==> h.sent == old(h.sent) + h.Reach([m])
        invariant forall h :: h in todo ==> h.sent == old(h.sent)
        invariant forall h :: h in handlers ==> h.Conn() == old(h.Conn())
        decreases |todo|
      {
        var h :| h in todo;
        h.SendServerResponse(m);
        todo := todo - {h};
      }
    }
    /** A run of broadcasts, one after another; writing changes nothing the invariant reads. */
    method BroadcastAll(ms: seq<ServerResponse>)
      requires Valid()
      modifies handlers
      ensures Valid() && (old(LiveBut(null)) ==> LiveBut(null))
      ensures forall h :: h in handlers ==> h.sent == old(h.sent) + h.Reach(ms) && h.Conn() == old(h.Conn())
    {
      var i := 0;
      while i < |ms|
        invariant 0 <= i <= |ms|
        invariant forall h :: h in handlers ==> h.sent == old(h.sent) + h.Reach(ms[..i]) && h.Conn() == old(h.Conn())
      {
        BroadcastMessage(ms[i]);
        assert ms[..i + 1] == ms[..i] + [ms[i]];
        i := i + 1;
      }
      assert ms[..i] == ms;
      SendingKeepsValid();
      if old(LiveBut(null)) {
        SendingKeepsLive(null);
      }
    }

    /** `getConnectedUsernamesWithRoles`: each username labelled with the roles it holds. */
    method ConnectedUsernamesWithRoles() returns (labels: set<string>)
      ensures labels == Roster(clients.Keys, SlotNames())
    {
      var names := SlotNames();
      labels := LabelAll(clients.Keys, names);
    }

    /** `broadcastUserListUpdate`: the roster, as a CLIENT_LIST, to everyone. */
    method BroadcastUserListUpdate() returns (update: ServerResponse)
      requires Valid()
      modifies handlers
      ensures Valid() && (old(LiveBut(null)) ==> LiveBut(null))
      ensures IsUserList(update, Roster(clients.Keys, SlotNames()), None)
      ensures forall h :: h in handlers ==> h.sent == old(h.sent) + h.Reach([update]) && h.Conn() == old(h.Conn())
    {
      var roster := ConnectedUsernamesWithRoles();
      var users := ListOf(roster);
      update := ServerResponse(ClientList, users, None);
      BroadcastMessage(update);
      SendingKeepsValid();
      SendingKeepsNames();
      if old(LiveBut(null)) {
        SendingKeepsLive(null);
      }
    }

    /** `startGame`: a no-op while a game is active; otherwise a fresh 8 by 8 game with the initial setup, announced to everyone. */
    method StartGame()
      requires Valid() && LiveBut(null)
      modifies this, handlers, counter
      ensures Valid() && LiveBut(null)
      ensures Registration() == old(Registration()) && gameActive
      ensures old(gameActive) ==> game == old(game) && forall h :: h in handlers ==> h.sent == old(h.sent)
      ensures !old(gameActive) ==>
        && game != null && fresh(game) && fresh(game.board) && FreshlySetUp(game)
        && forall h :: h in handlers ==> h.sent == old(h.sent) + [GAME_START_MESSAGE]
    {
      if gameActive {
        return;
      }
      InstallGame();
      BroadcastAll([ServerResponse(GameStart, [Teams.Name(game.currentTurn)], None)]);
    }

    /** The game `startGame` creates becomes the active one. */
    method InstallGame()
      requires Valid() && LiveBut(null)
      modifies this, counter
      ensures Valid() && LiveBut(null)
      ensures Registration() == old(Registration()) && gameActive
      ensures game != null && fresh(game) && fresh(game.board)
      ensures game.currentTurn == White && FreshlySetUp(game)
    {
      var g := NewGame(counter);
      game := g;
      gameActive := true;
    }

    /** `endGameDueToResignation`: if a game is active, everyone learns the winner and the game is dropped. */
    method EndGameDueToResignation(winner: Team)
      requires Valid() && LiveBut(null)
      modifies this, handlers
      ensures Valid() && LiveBut(null)
      ensures Registration() == old(Registration())
      ensures game == null && !gameActive
      ensures forall h :: h in handlers ==>
        h.sent == old(h.sent) + (if old(gameActive) then [ResignationMessage(winner)] else [])
    {
      if !gameActive {
        return;
      }
      BroadcastAll([ResignationMessage(winner)]);
      ResetAuthGameModel(); // also clears `isGameActive`, which the source clears just before
    }

    /** The slot of a colour; a spectator has none. */
    function ColourSlot(team: Team): Option<ClientHandler>
      reads this
    {
      if team == White then white else if team == Black then black else None
    }

    /**
     * `assignRole`: the previous holder of the colour is told it spectates,
     * the slot takes the player's handler and the new holder is told its
     * colour; an unknown player empties the slot and the call throws before
     * the roster is broadcast. A spectator assignment only broadcasts.
     */
    method AssignRole(player: string, team: Team) returns (threw: bool, ghost update: Option<ServerResponse>)
      requires Valid() && LiveBut(null)
      modifies this, handlers
      ensures Valid() && LiveBut(null)
      ensures Registration() == AssignedRole(old(Registration()), player, team)
      ensures threw <==> AssignThrows(old(Registration()), player, team)
      ensures update.Some? <==> !threw
      ensures update.Some? ==> IsUserList(update.value, Roster(clients.Keys, SlotNames()), None)
      ensures forall x :: x in handlers ==>
        x.sent == old(x.sent)
          + (if Some(x) == old(ColourSlot(team)) then [SPECTATE_MESSAGE] else [])
          + (if Some(x) == ColourSlot(team) then [ColourMessage(Letter(team))] else [])
          + (if update.Some? then [update.value] else [])
      ensures game == old(game) && gameActive == old(gameActive)
    {
      threw := false;
      if team != Spectator {
        threw := ReassignColour(player, team);
        if threw {
          update := None;
          return;
        }
      }
      var m := BroadcastUserListUpdate();
      update := Some(m);
    }

    /** The colour branch of `assignRole`. */
    method ReassignColour(player: string, team: Team) returns (threw: bool)
      requires team != Spectator && Valid() && LiveBut(null)
      modifies this, handlers
      ensures Valid() && LiveBut(null)
      ensures Registration() == AssignedRole(old(Registration()), player, team)
      ensures threw <==> player !in clients
      ensures forall x :: x in handlers ==>
        && x.Conn() == old(x.Conn())
        && x.sent == old(x.sent)
          + (if Some(x) == old(ColourSlot(team)) then [SPECTATE_MESSAGE] else [])
          + (if Some(x) == ColourSlot(team) then [ColourMessage(Letter(team))] else [])
      ensures game == old(game) && gameActive == old(gameActive)
    {
      DemoteHolder(team);
      threw := PromotePlayer(player, team);
    }

    /** The first step of `assignRole` for a colour: its current holder, if any, is told it spectates. */
    method DemoteHolder(team: Team)
      requires Valid() && LiveBut(null)
      modifies handlers
      ensures Valid() && LiveBut(null)
      ensures forall x :: x in handlers ==>
        && x.Conn() == old(x.Conn())
        && x.sent == old(x.sent) + (if Some(x) == ColourSlot(team) then [SPECTATE_MESSAGE] else [])
    {
      var previous := ColourSlot(team);
      if previous.Some? {
        Tell(previous.value, SPECTATE_MESSAGE);
      }
    }

    /** The rest of `assignRole` for a colour: the slot takes the player's handler, which is told its colour. */
    method PromotePlayer(player: string, team: Team) returns (threw: bool)
      requires team != Spectator && Valid() && LiveBut(null)
      modifies this, handlers
      ensures Valid() && LiveBut(null)
      ensures Registration() == AssignedRole(old(Registration()), player, team)
      ensures threw <==> player !in clients
      ensures forall x :: x in handlers ==>
        && x.Conn() == old(x.Conn())
        && x.sent == old(x.sent) + (if Some(x) == ColourSlot(team) then [ColourMessage(Letter(team))] else [])
      ensures game == old(game) && gameActive == old(gameActive)
    {
      var holder := if player in clients then Some(clients[player]) else None;
      SetColourSlot(team, holder);
      if holder.None? {
        return true;
      }
      Tell(holder.value, ColourMessage(Letter(team)));
      threw := false;
    }

    /** `sendServerResponse` to one registered handler, which can be written to. */
    method Tell(h: ClientHandler, m: ServerResponse)
      requires Valid() && LiveBut(null) && h in handlers
      modifies h
      ensures Valid() && LiveBut(null)
      ensures h.sent == old(h.sent) + [m] && h.Conn() == old(h.Conn())
    {
      h.SendServerResponse(m);
      SendingKeepsValid();
      SendingKeepsLive(null);
    }

    /** The slot of `team` takes `holder`. */
    method SetColourSlot(team: Team, holder: Option<ClientHandler>)
      requires team != Spectator && Valid() && LiveBut(null)
      requires Occupant(holder) <= handlers
      modifies this
      ensures Valid() && LiveBut(null)
      ensures ColourSlot(team) == holder
      ensures Registration() == if team == White then old(Registration()).(white := holder) else old(Registration()).(black := holder)
      ensures game == old(game) && gameActive == old(gameActive)
    {
      if team == White {
        white := holder;
      } else {
        black := holder;
      }
    }

    /** The team `attemptMove` finds for a username: None if it is not registered. */
    function RequesterOf(u: string): Option<Team>
      reads this
    {
      if u in clients then Some(RequesterTeam(Registration(), clients[u])) else None
    }

    /** The reply `attemptMove` gives in the current state. */
    function MoveCheck(u: string, from: Position, to: Position): ServerResponse
      reads this, GameObjects()
    {
      if game == null then NOT_ACTIVE
      else MoveVerdict(gameActive, RequesterOf(u), game.currentTurn, game.board.PieceAt(from), game.CanMakeMove(from, to))
    }

    /**
     * `attemptMove`: the checks of `MoveVerdict`, in order; a move that
     * passes them all is made, and the game's notifications are broadcast.
     */
    method AttemptMove(u: string, from: Position, to: Position) returns (r: ServerResponse)
      requires Valid() && LiveBut(null)
      modifies this, handlers, GameObjects()
      ensures Valid() && LiveBut(null)
      ensures Registration() == old(Registration())
      ensures r == old(MoveCheck(u, from, to))
      ensures r.kind != Success ==>
        && game == old(game) && gameActive == old(gameActive)
        && (game != null ==> game.board.squares == old(game.board.squares) && game.currentTurn == old(game.currentTurn))
        && forall h :: h in handlers ==> h.sent == old(h.sent)
      ensures r.kind == Success ==> old(game) != null && MoveEffect(old(game), from, to, old(game.board.squares), old(game.currentTurn))
      ensures r.kind == Success ==>
        if Abs(to.x - from.x) == 2 then
          && (forall h :: h in handlers ==> h.sent == old(h.sent) + CaptureBroadcasts(from, to, GameOver(old(game).board.squares), old(game.currentTurn)))
          && (if GameOver(old(game).board.squares) then game == null && !gameActive else game == old(game) && gameActive)
        else
          && (forall h :: h in handlers ==> h.sent == old(h.sent) + StepBroadcasts(from, to, Flip(old(game.currentTurn))))
          && game == old(game) && gameActive
    {
      if !gameActive || game == null {
        return NOT_ACTIVE;
      }
      var expected := game.currentTurn;
      if u !in clients {
        return NOT_A_PLAYER;
      }
      var requesting := clients[u];
      var team := Spectator;
      if Some(requesting) == white {
        team := White;
      } else if Some(requesting) == black {
        team := Black;
      }
      if team != expected {
        return NOT_YOUR_TURN;
      }
      var piece := game.board.PieceAt(from);
      if piece.None? {
        return NO_PIECE;
      }
      if piece.value.team != team {
        return NOT_YOUR_PIECE;
      }
      if !game.CanMakeMove(from, to) {
        return INVALID_MOVE;
      }
      PerformMove(from, to);
      r := MOVE_SUCCESS;
    }

    /** The accepted branch of `attemptMove`: `makeMove`, then the listener's broadcasts. */
    method PerformMove(from: Position, to: Position)
      requires Valid() && LiveBut(null) && game != null
      requires game.CanMakeMove(from, to) && game.board.squares[from].team == game.currentTurn
      modifies this, handlers, GameObjects()
      ensures Valid() && LiveBut(null)
      ensures Registration() == old(Registration())
      ensures MoveEffect(old(game), from, to, old(game.board.squares), old(game.currentTurn))
      ensures if Abs(to.x - from.x) == 2 then
          && (forall h :: h in handlers ==> h.sent == old(h.sent) + CaptureBroadcasts(from, to, GameOver(old(game).board.squares), old(game.currentTurn)))
          && (if GameOver(old(game).board.squares) then game == null && !gameActive else game == old(game) && gameActive)
        else
          && (forall h :: h in handlers ==> h.sent == old(h.sent) + StepBroadcasts(from, to, Flip(old(game.currentTurn))))
          && game == old(game) && gameActive
    {
      var g := game;
      var es := ApplyMove(from, to);
      var turn := g.currentTurn;
      if Abs(to.x - from.x) == 2 {
        CaptureMessages(from, to, GameOver(g.board.squares), turn);
        MoveEndsGame(from, to, GameOver(g.board.squares), turn);
      } else {
        SimpleMoveMessages(from, to, turn);
        MoveEndsGame(from, to, false, turn);
      }
      DeliverEvents(es, turn);
    }

    /** `makeMove` on the server's game, which the checks have shown succeeds; returns the notifications it made. */
    method ApplyMove(from: Position, to: Position) returns (es: seq<GameEvent>)
      requires Valid() && LiveBut(null) && game != null
      requires game.CanMakeMove(from, to) && game.board.squares[from].team == game.currentTurn
      modifies GameObjects()
      ensures Valid() && LiveBut(null)
      ensures unchanged(this) && unchanged(handlers)
      ensures MoveEffect(game, from, to, old(game.board.squares), old(game.currentTurn))
      ensures game.events == old(game.events) + es
      ensures es == if Abs(to.x - from.x) == 2 then JumpEvents(from, to, GameOver(game.board.squares), game.currentTurn)
        else [TurnChange(game.currentTurn), MoveMade(from, to)]
    {
      var n0 := |game.events|;
      var res := game.MakeMove(from, to);
      assert res.Ok? && res.value;
      es := game.events[n0..];
    }

    /**
     * The listener's callbacks for a run of events, in order: each one's
     * broadcasts, and a reset of the game on completion.
     */
    method DeliverEvents(es: seq<GameEvent>, turn: Team)
      requires Valid() && LiveBut(null)
      modifies this, handlers
      ensures Valid() && LiveBut(null)
      ensures Registration() == old(Registration())
      ensures forall h :: h in handlers ==> h.sent == old(h.sent) + Messages(es, turn)
      ensures if EndsGame(es) then game == null && !gameActive
        else game == old(game) && gameActive == old(gameActive)
      decreases |es|
    {
      if es == [] {
        return;
      }
      DeliverEvent(es[0], turn);
      DeliverEvents(es[1..], turn);
      EndsGameCons(es);
    }

    /** One callback: its broadcasts, then a reset of the game on completion. */
    method DeliverEvent(e: GameEvent, turn: Team)
      requires Valid() && LiveBut(null)
      modifies this, handlers
      ensures Valid() && LiveBut(null)
      ensures Registration() == old(Registration())
      ensures forall h :: h in handlers ==> h.sent == old(h.sent) + EventMessages(e, turn)
      ensures if Resets(e) then game == null && !gameActive else game == old(game) && gameActive == old(gameActive)
    {
      BroadcastAll(EventMessages(e, turn));
      if Resets(e) {
        ResetAuthGameModel();
      }
    }

    /** `releaseRoles`: the slots the handler holds become empty. */
    method ReleaseRoles(h: ClientHandler)
      modifies this
      ensures Registration() == Released(old(Registration()), h)
      ensures game == old(game) && gameActive == old(gameActive)
    {
      if host == Some(h) {
        host := None;
      }
      if white == Some(h) {
        white := None;
      }
      if black == Some(h) {
        black := None;
      }
    }

    /** `assignRoles`: the free slots the newcomer takes, each announced to it by letter. */
    method AssignRoles(h: ClientHandler)
      modifies this, h
      ensures Registration() == JoinRoles(old(Registration()), h)
      ensures h.sent == old(h.sent) + h.Reach(RoleMessages(JoinLetters(old(Registration()))))
      ensures h.Conn() == old(h.Conn())
      ensures game == old(game) && gameActive == old(gameActive)
    {
      ghost var letters: seq<string> := [];
      if host.None? {
        host := Some(h);
        h.SendServerResponse(RoleMessage("H"));
        letters := ["H"];
      }
      var letter;
      if white.None? {
        white := Some(h);
        letter := "W";
      } else if black.None? {
        black := Some(h);
        letter := "B";
      } else {
        letter := "S";
      }
      h.SendServerResponse(RoleMessage(letter));
      letters := letters + [letter];
      assert letters == JoinLetters(old(Registration()));
      assert RoleMessages(letters) == RoleMessages(letters[..|letters| - 1]) + [RoleMessage(letter)];
    }

    /** The removals of `unregisterClient`: the name's entry, the handler, and the handler's roles. */
    method Deregister(h: ClientHandler) returns (removed: bool)
      requires Valid()
      modifies this
      ensures Valid()
      ensures Registration() == Unregistered(old(Registration()), h, h.username)
      ensures removed <==> RemovedSomething(old(Registration()), h, h.username)
      ensures game == old(game) && gameActive == old(gameActive)
    {
      var name := h.username;
      var removedClient := false;
      if name.Some? {
        removedClient := name.value in clients;
        clients := clients - {name.value};
      }
      var removedHandler := h in handlers;
      handlers := handlers - {h};
      ReleaseRoles(h);
      removed := removedClient || removedHandler;
    }

    /**
     * `unregisterClient`: the entry under the handler's username and the
     * handler itself go, its roles are released, the roster is broadcast if
     * anything was removed, and an empty server drops its game.
     */
    method UnregisterClient(h: ClientHandler) returns (ghost update: Option<ServerResponse>)
      requires Valid() && LiveBut(h)
      modifies this, handlers
      ensures Valid() && LiveBut(null)
      ensures Registration() == Unregistered(old(Registration()), h, old(h.username))
      ensures update.Some? <==> RemovedSomething(old(Registration()), h, old(h.username))
      ensures update.Some? ==> IsUserList(update.value, Roster(clients.Keys, SlotNames()), None)
      ensures forall x :: x in handlers ==>
        x.sent == old(x.sent) + x.Reach(if update.Some? then [update.value] else []) && x.Conn() == old(x.Conn())
      ensures h.sent == old(h.sent) && h.Conn() == old(h.Conn())
      ensures game == (if handlers == {} then null else old(game))
      ensures gameActive == (handlers != {} && old(gameActive))
    {
      var removed := Deregister(h);

      if removed {
        var u := BroadcastUserListUpdate();
        update := Some(u);
      } else {
        update := None;
      }

      if |handlers| == 0 {
        ResetAuthGameModel();
      }
    }

    /**
     * `registerClient`: a taken username closes the newcomer's connection
     * (whose unregistration then drops the name's entry); a new one is
     * recorded, the handler is registered and given its roles, and the
     * roster is broadcast.
     */
    method RegisterClient(h: ClientHandler, u: string) returns (ghost update: Option<ServerResponse>)
      requires Valid() && LiveBut(null)
      requires h.service == this && h.username == Some(u) && h.CanSend() && h !in handlers
      modifies this, handlers, h
      ensures Valid() && LiveBut(null)
      ensures u in old(clients) ==>
        && Registration() == Unregistered(old(Registration()), h, Some(u))
        && !h.running && !h.outOpen && h.sent == old(h.sent)
        && update.Some?
        && (forall x :: x in handlers ==> x.sent == old(x.sent) + [update.value])
      ensures u !in old(clients) ==>
        && Registration() == Registered(old(Registration()), h, u)
        && update.Some?
        && h.CanSend() && h.sent == old(h.sent) + RoleMessages(JoinLetters(old(Registration()))) + [update.value]
        && (forall x :: x in old(handlers) ==> x.sent == old(x.sent) + [update.value])
      ensures update.Some? ==> IsUserList(update.value, Roster(clients.Keys, SlotNames()), None)
      ensures h.username == old(h.username)
      ensures game == old(game) && gameActive == old(gameActive)
    {
      if u in clients {
        update := h.CloseConnection();
      } else {
        var m := AddClient(h, u);
        update := Some(m);
      }
    }

    /** The new-username path of `registerClient`. */
    method AddClient(h: ClientHandler, u: string) returns (update: ServerResponse)
      requires Valid() && LiveBut(null)
      requires h.service == this && h.username == Some(u) && h.CanSend() && h !in handlers && u !in clients
      modifies this, handlers, h
      ensures Valid() && LiveBut(null)
      ensures Registration() == Registered(old(Registration()), h, u)
      ensures h.sent == old(h.sent) + RoleMessages(JoinLetters(old(Registration()))) + [update]
      ensures forall x :: x in old(handlers) ==> x.sent == old(x.sent) + [update]
      ensures IsUserList(update, Roster(clients.Keys, SlotNames()), None)
      ensures game == old(game) && gameActive == old(gameActive)
    {
      Enroll(h, u);
      update := BroadcastUserListUpdate();
    }

    /** Recording the newcomer under its name, adding its handler and giving it its roles. */
    method Enroll(h: ClientHandler, u: string)
      requires Valid() && LiveBut(null)
      requires h.service == this && h.username == Some(u) && h.CanSend() && h !in handlers && u !in clients
      modifies this, h
      ensures Valid() && LiveBut(null)
      ensures Registration() == Registered(old(Registration()), h, u)
      ensures h.sent == old(h.sent) + RoleMessages(JoinLetters(old(Registration())))
      ensures h.Conn() == old(h.Conn())
      ensures game == old(game) && gameActive == old(gameActive)
    {
      clients := clients[u := h];
      handlers := handlers + {h};
      AssignRoles(h);
    }
  }
}
