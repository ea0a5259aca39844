/**
 * The messages exchanged between a client and its room, after JSON decoding
 * (client to server) and before JSON encoding (server to client). Every
 * server message carries the room's sequence number at the time it was sent.
 */
module Messages {
  import opened Wrappers
  import opened Protocol
  import opened GameEngine

  /** A decoded client message; any other `type` is `Unrecognized`. */
  datatype ClientMessage =
    | JoinRoom(playerName: string)
    | LeaveRoom
    | SelectGame(gameId: string)
    | Ready(ready: bool)
    | StartGame
    | GameInput(gameId: string, payload: Json)
    | Unrecognized(messageType: string)

  /** An incoming frame: text that is not JSON, or a decoded message. */
  datatype Frame = Unparsable | Parsed(msg: ClientMessage)

  datatype ErrorCode = InvalidMessage | NotHost | NoGame | NotReady | UnknownGame

  /** The wire spelling of an error code. */
  function CodeText(code: ErrorCode): string
  {
    match code
    case InvalidMessage => "INVALID_MESSAGE"
    case NotHost => "NOT_HOST"
    case NoGame => "NO_GAME"
    case NotReady => "NOT_READY"
    case UnknownGame => "UNKNOWN_GAME"
  }

  /** Distinct codes have distinct spellings. */
  lemma CodeTextInjective(a: ErrorCode, b: ErrorCode)
    requires CodeText(a) == CodeText(b)
    ensures a == b
  {
  }

  datatype ServerMessage =
    | RoomStateMsg(seqNo: nat, roomCode: string, phase: Phase, players: seq<PlayerInfo>,
                   hostId: string, selectedGameId: Option<string>, sessionScores: map<string, int>)
    | GameStartingMsg(seqNo: nat, gameId: string, config: GameConfig, countdownSecs: int)
    | GameStateMsg(seqNo: nat, gameId: string, state: GameView, isDelta: bool)
    | GameOverMsg(seqNo: nat, gameId: string, results: seq<GameResult>)
    | ErrorMsg(seqNo: nat, code: ErrorCode, message: string)

  /** Who receives a message: the whole room, or the one connection that caused it. */
  datatype Target = Everyone | Only(id: string)

  datatype Outbound = Outbound(target: Target, msg: ServerMessage)
}
