/**
 * Value types shared by the room and the game modules: the shapes declared in
 * packages/shared/src/protocol.ts and packages/shared/src/game-registry.ts,
 * plus the JSON values a client can put into a `game_input` payload.
 */
module Protocol {
  import opened Wrappers

  /** A parsed JSON value. Numbers are modelled as integers. */
  datatype Json =
    | JNull
    | JBool(b: bool)
    | JNum(n: int)
    | JStr(s: string)
    | JArray(items: seq<Json>)
    | JObject(fields: map<string, Json>)

  /** `obj[field]` on a parsed value; `None` stands for `undefined`. */
  function Field(v: Json, field: string): (r: Option<Json>)
    ensures r.Some? <==> v.JObject? && field in v.fields
  {
    if v.JObject? && field in v.fields then Some(v.fields[field]) else None
  }

  datatype Phase = Lobby | Countdown | Playing | Results

  /** One roster entry; the room's own `Player` record has exactly these fields. */
  datatype PlayerInfo = PlayerInfo(id: string, name: string, ready: bool, connected: bool)

  /** The per-game diagnostic bag attached to a result. */
  datatype Stats =
      /** type-racer: words per minute and progress typedChars/textChars */
    | TypingStats(wpm: int, typedChars: nat, textChars: nat)
      /** reaction-speed: rounded mean reaction time and number of false starts */
    | ReactionStats(avgMs: int, falseStarts: nat)

  datatype GameResult = GameResult(playerId: string, playerName: string, score: int, rank: int, stats: Stats)

  datatype TimingMode = Realtime | TurnBased

  datatype GameTiming = GameTiming(mode: TimingMode, tickRate: Option<int>, broadcastRate: Option<int>, maxDurationSecs: int)

  datatype GameMeta = GameMeta(
    gameId: string,
    displayName: string,
    description: string,
    minPlayers: int,
    maxPlayers: int,
    timing: GameTiming)

  /** The ids of a sequence of results, in result order. */
  function ResultIds(rs: seq<GameResult>): (ids: seq<string>)
    ensures |ids| == |rs| && forall i :: 0 <= i < |rs| ==> ids[i] == rs[i].playerId
  {
    seq(|rs|, i requires 0 <= i < |rs| => rs[i].playerId)
  }
}
