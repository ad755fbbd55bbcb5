/**
 * `ServerGameListener`: how the server turns the game's events into
 * broadcasts. Each callback is a function from the event to the messages it
 * broadcasts, in order; `onGameComplete` also resets the server's game.
 */
module GameListener {
  import opened Wrappers
  import opened Teams
  import opened Positions
  import opened Game
  import opened ResponseCodes
  import opened ServerResponses

  /** ROUND_UPDATE naming the side to move. */
  function RoundMessage(t: Team): ServerResponse {
    ServerResponse(RoundUpdate, [Teams.Name(t)], None)
  }

  /** MOVE_PIECE with both squares in text form. */
  function MoveMessage(from: Position, to: Position): ServerResponse {
    ServerResponse(MovePiece, [Positions.ToString(from), Positions.ToString(to)], None)
  }

  /** REMOVE_PIECE with the emptied square in text form. */
  function RemoveMessage(p: Position): ServerResponse {
    ServerResponse(RemovePiece, [Positions.ToString(p)], None)
  }

  /** GAME_END naming the winner. */
  function GameEndMessage(t: Team): ServerResponse {
    ServerResponse(GameEnd, [Teams.Name(t)], None)
  }

  /**
   * The broadcasts of one callback. `turn` is what `getCurrentTurn` of the
   * server's game returns when `onMoveMade` runs.
   */
  function EventMessages(e: GameEvent, turn: Team): (ms: seq<ServerResponse>)
    ensures |ms| <= 2
    ensures ms == [] <==> e.BoardUpdate?
    ensures forall i :: 0 <= i < |ms| ==> ms[i].raw.None? && |ms[i].payload| >= 1
    ensures e.MoveMade? ==> |ms| == 2 && ms[1] == RoundMessage(turn)
  {
    match e
    case GameComplete(t) => [GameEndMessage(t)]
    case MoveMade(from, to) => [MoveMessage(from, to), RoundMessage(turn)]
    case BoardUpdate(_) => []
    case TurnChange(t) => [RoundMessage(t)]
    case PieceRemoved(p) => [RemoveMessage(p)]
  }

  /** Only `onGameComplete` resets the server's game. */
  predicate Resets(e: GameEvent) {
    e.GameComplete?
  }

  /** Whether a run of events holds a completion, after which the server has no game. */
  predicate EndsGame(es: seq<GameEvent>) {
    exists i :: 0 <= i < |es| && Resets(es[i])
  }

  /** A run ends the game iff its first event resets or the rest ends it. */
  lemma EndsGameCons(es: seq<GameEvent>)
    requires es != []
    ensures EndsGame(es) <==> Resets(es[0]) || EndsGame(es[1..])
  {
    if EndsGame(es) && !Resets(es[0]) {
      var i :| 0 <= i < |es| && Resets(es[i]);
      assert es[1..][i - 1] == es[i];
    }
    if EndsGame(es[1..]) {
      var i :| 0 <= i < |es[1..]| && Resets(es[1..][i]);
      assert es[i + 1] == es[1..][i];
    }
  }

  /** A move's notifications end the game exactly when it is a capture that wins. */
  lemma MoveEndsGame(from: Position, to: Position, over: bool, turn: Team)
    ensures EndsGame(JumpEvents(from, to, over, turn)) <==> over
    ensures !EndsGame([TurnChange(turn), MoveMade(from, to)])
  {
    if over {
      assert Resets(JumpEvents(from, to, over, turn)[2]);
    }
  }

  /** The broadcasts of a run of events, one callback after another. */
  function Messages(es: seq<GameEvent>, turn: Team): (ms: seq<ServerResponse>)
    ensures |ms| <= 2 * |es|
  {
    if es == [] then [] else EventMessages(es[0], turn) + Messages(es[1..], turn)
  }

  /** The broadcasts of two runs of events follow each other. */
  lemma {:induction false} MessagesAppend(a: seq<GameEvent>, b: seq<GameEvent>, turn: Team)
    ensures Messages(a + b, turn) == Messages(a, turn) + Messages(b, turn)
  {
    if a == [] {
      assert a + b == b;
    } else {
      assert (a + b)[0] == a[0];
      assert (a + b)[1..] == a[1..] + b;
      MessagesAppend(a[1..], b, turn);
    }
  }

  /** One more event adds its own broadcasts at the end. */
  lemma MessagesSnoc(es: seq<GameEvent>, e: GameEvent, turn: Team)
    ensures Messages(es + [e], turn) == Messages(es, turn) + EventMessages(e, turn)
  {
    MessagesAppend(es, [e], turn);
    assert [e][1..] == [];
  }

  /**
   * A simple move reports the turn change and then the move, so the clients
   * see ROUND_UPDATE, MOVE_PIECE, ROUND_UPDATE, both updates naming the new
   * side to move.
   */
  lemma SimpleMoveMessages(from: Position, to: Position, t: Team)
    ensures Messages([TurnChange(t), MoveMade(from, to)], t) ==
      [RoundMessage(t), MoveMessage(from, to), RoundMessage(t)]
  {
    assert [TurnChange(t), MoveMade(from, to)][1..] == [MoveMade(from, to)];
    assert [MoveMade(from, to)][1..] == [];
  }

  /** Completion reported twice broadcasts GAME_END twice. */
  lemma CompletionMessages(over: bool, turn: Team)
    ensures Messages(Completion(over, turn) + Completion(over, turn), turn) ==
      if over then [GameEndMessage(turn), GameEndMessage(turn)] else []
  {
    var tail := Completion(over, turn) + Completion(over, turn);
    if over {
      assert tail == [GameComplete(turn), GameComplete(turn)];
      assert tail[1..] == [GameComplete(turn)];
      assert [GameComplete(turn)][1..] == [];
    } else {
      assert tail == [];
    }
  }

  /**
   * A capture reports the removal and the move, so the clients see
   * REMOVE_PIECE, MOVE_PIECE, ROUND_UPDATE naming the side still to move,
   * and, when it wins, GAME_END twice.
   */
  lemma CaptureMessages(from: Position, to: Position, over: bool, turn: Team)
    ensures Messages(JumpEvents(from, to, over, turn), turn) ==
      [RemoveMessage(Midpoint(from, to)), MoveMessage(from, to), RoundMessage(turn)] +
      (if over then [GameEndMessage(turn), GameEndMessage(turn)] else [])
  {
    var head := [PieceRemoved(Midpoint(from, to)), MoveMade(from, to)];
    var tail := Completion(over, turn) + Completion(over, turn);
    assert JumpEvents(from, to, over, turn) == head + tail;
    MessagesAppend(head, tail, turn);
    assert head[1..] == [MoveMade(from, to)];
    assert [MoveMade(from, to)][1..] == [];
    assert Messages(head, turn) == [RemoveMessage(Midpoint(from, to)), MoveMessage(from, to), RoundMessage(turn)];
    CompletionMessages(over, turn);
  }

  /** The squares in a MOVE_PIECE broadcast parse back to the move's squares. */
  lemma MoveMessageParses(from: Position, to: Position)
    ensures Positions.FromString(Some(MoveMessage(from, to).payload[0])) == Ok(from)
    ensures Positions.FromString(Some(MoveMessage(from, to).payload[1])) == Ok(to)
  {
    FromStringToString(from);
    FromStringToString(to);
  }

  /** The team in a ROUND_UPDATE or GAME_END broadcast is named so `valueOf` recovers it. */
  lemma TeamMessagesParse(t: Team)
    ensures ValueOf(RoundMessage(t).payload[0]) == Some(t)
    ensures ValueOf(GameEndMessage(t).payload[0]) == Some(t)
  {
    ValueOfName(t);
  }
}
