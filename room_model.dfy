/**
 * The room session state machine as a function of its state: every handler
 * and timer callback of `RoomParty` maps the room's fields (a `RoomState`
 * value) and the event's inputs to the new fields. Sending a message is
 * appending it to the outbox with the current sequence number, which then
 * goes up by one.
 *
 * Timers are flags: `countdownPending` is the 3 s start timer (with the module
 * it captured), `resultsPending` the 5 s results timer, `tickLoop` and
 * `broadcastLoop` the two intervals of a real-time game (again with the
 * captured module). `Valid` shows at most one of each is ever live.
 */
module RoomModel {
  import opened Wrappers
  import opened Protocol
  import opened Numeric
  import opened GameEngine
  import opened Messages
  import Roster
  import ReactionSpeed

  datatype RoomState = RoomState(
    roomId: string,
    phase: Phase,
    players: seq<PlayerInfo>,
    hostId: Option<string>,
    selectedGameId: Option<string>,
    sessionScores: map<string, int>,
    gameModule: Option<ModuleKind>,
    gameState: Option<GameState>,
    prevGameState: Option<GameState>,
    tickLoop: Option<ModuleKind>,
    broadcastLoop: bool,
    lastTickTime: int,
    seqNo: nat,
    outbox: seq<Outbound>,
    countdownPending: Option<ModuleKind>,
    resultsPending: bool)

  const CountdownSecs: int := 3

  const ParseErrorText: string := "Could not parse message"
  const NotHostSelectText: string := "Only the host can select a game"
  const NotHostStartText: string := "Only the host can start the game"
  const NoGameText: string := "No game selected"
  const NotReadyText: string := "Not all players are ready"

  function UnknownGameText(gameId: string): string
  {
    "Game \"" + gameId + "\" not found"
  }

  function InfoId(p: PlayerInfo): string { p.id }

  /** A fresh room: lobby, nobody in it, nothing sent. */
  function Initial(roomId: string): RoomState
  {
    RoomState(roomId, Lobby, [], None, None, map[], None, None, None, None, false, 0, 0, [], None, false)
  }

  /** JavaScript falsiness of a `string | null`: null and the empty string. */
  predicate Falsy(v: Option<string>)
  {
    v.None? || v.value == ""
  }

  // ---- invariant ----

  predicate IsConnectedId(players: seq<PlayerInfo>, id: string)
  {
    exists i :: 0 <= i < |players| && players[i].id == id && players[i].connected
  }

  /**
   * Roster ids are unique, the host, if any, is a connected player, and there
   * is a host whenever some player is connected.
   */
  predicate RosterValid(r: RoomState)
  {
    && Roster.Distinct(r.players, InfoId)
    && (r.hostId.Some? ==> IsConnectedId(r.players, r.hostId.value))
    && (r.hostId.None? ==> forall i :: 0 <= i < |r.players| ==> !r.players[i].connected)
  }

  /** Message i of the outbox carries sequence number i, and seq is the next one. */
  predicate OutboxValid(r: RoomState)
  {
    && r.seqNo == |r.outbox|
    && forall i :: 0 <= i < |r.outbox| ==> r.outbox[i].msg.seqNo == i
  }

  /** A module and its state come and go together, and the state belongs to that module and is valid. */
  predicate GameWellFormed(r: RoomState)
  {
    && (r.gameModule.Some? <==> r.gameState.Some?)
    && (r.gameState.Some? ==> KindOf(r.gameState.value) == r.gameModule.value && GameEngine.Valid(r.gameState.value))
  }

  /** The phase decides which timers are live, and a live game has a selected game. */
  predicate TimersValid(r: RoomState)
  {
    && (r.gameModule.Some? ==> (r.phase == Countdown || r.phase == Playing) && !Falsy(r.selectedGameId))
    && (r.phase == Countdown <==> r.countdownPending.Some?)
    && (r.phase == Results <==> r.resultsPending)
    && (r.tickLoop.Some? <==> r.broadcastLoop)
    && (r.tickLoop.Some? ==> r.phase == Playing)
    && (r.gameModule.Some? && r.countdownPending.Some? ==> r.gameModule == r.countdownPending)
    && (r.gameModule.Some? && r.tickLoop.Some? ==> r.gameModule == r.tickLoop)
  }

  predicate Valid(r: RoomState)
  {
    RosterValid(r) && OutboxValid(r) && GameWellFormed(r) && TimersValid(r)
  }

  lemma InitialValid(roomId: string)
    ensures Valid(Initial(roomId))
  {
  }

  /** Sequence numbers of sent messages strictly increase and are distinct. */
  lemma SeqNumbersIncrease(r: RoomState, i: nat, j: nat)
    requires OutboxValid(r) && i < j < |r.outbox|
    ensures r.outbox[i].msg.seqNo < r.outbox[j].msg.seqNo
  {
  }

  // ---- sending ----

  /** `broadcast(msg)` / `conn.send(msg)` where msg takes the current seq. */
  function Send(r: RoomState, target: Target, m: ServerMessage): RoomState
  {
    r.(seqNo := r.seqNo + 1, outbox := r.outbox + [Outbound(target, m)])
  }

  lemma SendValid(r: RoomState, target: Target, m: ServerMessage)
    requires OutboxValid(r) && m.seqNo == r.seqNo
    ensures OutboxValid(Send(r, target, m))
  {
  }

  function HostIdText(hostId: Option<string>): string
  {
    if hostId.Some? then hostId.value else ""
  }

  function RoomStateMessage(r: RoomState): ServerMessage
  {
    RoomStateMsg(r.seqNo, r.roomId, r.phase, r.players, HostIdText(r.hostId), r.selectedGameId, r.sessionScores)
  }

  /** `broadcastRoomState()`: the room's current fields to everybody. */
  function BroadcastRoomState(r: RoomState): RoomState
  {
    Send(r, Everyone, RoomStateMessage(r))
  }

  /** `sendError(conn, code, message)`: to the sender only. */
  function SendError(r: RoomState, id: string, code: ErrorCode, message: string): RoomState
  {
    Send(r, Only(id), ErrorMsg(r.seqNo, code, message))
  }

  // ---- roster helpers ----

  /** The index of the first connected player in insertion order. */
  function FirstConnectedIndex(players: seq<PlayerInfo>): (r: Option<nat>)
    ensures r.None? <==> forall i :: 0 <= i < |players| ==> !players[i].connected
    ensures r.Some? ==> r.value < |players| && players[r.value].connected
    ensures r.Some? ==> forall i :: 0 <= i < r.value ==> !players[i].connected
  {
    if |players| == 0 then None
    else if players[0].connected then Some(0)
    else
      match FirstConnectedIndex(players[1..])
      case None => None
      case Some(i) => Some(i + 1)
  }

  /** `transferHost()`: the first connected player becomes host, or nobody. */
  function TransferHost(r: RoomState): (r': RoomState)
    ensures r'.hostId.None? <==> forall i :: 0 <= i < |r.players| ==> !r.players[i].connected
    ensures r'.hostId.Some? ==> IsConnectedId(r.players, r'.hostId.value)
    ensures r' == r.(hostId := r'.hostId)
  {
    match FirstConnectedIndex(r.players)
    case None => r.(hostId := None)
    case Some(i) => r.(hostId := Some(r.players[i].id))
  }

  /** Every player's ready flag cleared, nothing else changed; the closed form that the loop `RoomParty.ClearReadyFlags` is proved to compute. */
  function ClearReady(players: seq<PlayerInfo>): (r: seq<PlayerInfo>)
    ensures |r| == |players|
    ensures forall i :: 0 <= i < |players| ==> r[i] == players[i].(ready := false)
  {
    seq(|players|, i requires 0 <= i < |players| => players[i].(ready := false))
  }

  /** Deleting every record whose `connected` is false while iterating the map: the connected ones in order. */
  function RemoveDisconnected(players: seq<PlayerInfo>): (r: seq<PlayerInfo>)
    ensures forall y :: y in r <==> y in players && y.connected
    ensures |r| <= |players|
  {
    if |players| == 0 then []
    else
      var last := players[|players| - 1];
      assert forall y :: y in players <==> y in players[..|players| - 1] || y == last;
      RemoveDisconnected(players[..|players| - 1]) + (if last.connected then [last] else [])
  }

  lemma {:induction false} RemoveDisconnectedDistinct(players: seq<PlayerInfo>)
    requires Roster.Distinct(players, InfoId)
    ensures Roster.Distinct(RemoveDisconnected(players), InfoId)
  {
    if |players| > 0 {
      var init := players[..|players| - 1];
      var last := players[|players| - 1];
      assert Roster.Distinct(init, InfoId);
      RemoveDisconnectedDistinct(init);
      var rest := RemoveDisconnected(init);
      if last.connected {
        forall j | 0 <= j < |rest| ensures rest[j].id != last.id {
          assert rest[j] in init;
          var k :| 0 <= k < |init| && init[k] == rest[j];
          assert players[k] == rest[j];
        }
      }
    }
  }

  predicate AllReady(players: seq<PlayerInfo>)
  {
    forall i :: 0 <= i < |players| ==> players[i].ready
  }

  function DefaultName(id: string): string
  {
    "Player " + id[..Min(4, |id|)]
  }

  // ---- sessionScores ----

  /** `sessionScores[id] ?? 0`. */
  function ScoreOf(m: map<string, int>, id: string): int
  {
    if id in m then m[id] else 0
  }

  /** The total of the scores the results give one player. */
  function TotalFor(results: seq<GameResult>, id: string): int
  {
    if |results| == 0 then 0
    else TotalFor(results[..|results| - 1], id)
         + (if results[|results| - 1].playerId == id then results[|results| - 1].score else 0)
  }

  /** The loop of `endGame`: each result's score added to its player's running total. */
  function AddScores(m: map<string, int>, results: seq<GameResult>): map<string, int>
  {
    if |results| == 0 then m
    else
      var m' := AddScores(m, results[..|results| - 1]);
      var x := results[|results| - 1];
      m'[x.playerId := ScoreOf(m', x.playerId) + x.score]
  }

  /**
   * After `endGame` a player's total is the old total (missing counting as 0)
   * plus what this game's results give them; players without a result keep
   * their entry, present or absent.
   */
  lemma {:induction false} AddScoresSpec(m: map<string, int>, results: seq<GameResult>)
    ensures forall id :: id in AddScores(m, results) <==> id in m || id in ResultIds(results)
    ensures forall id :: ScoreOf(AddScores(m, results), id) == ScoreOf(m, id) + TotalFor(results, id)
  {
    if |results| > 0 {
      var init := results[..|results| - 1];
      AddScoresSpec(m, init);
      assert forall id :: id in ResultIds(results) <==> id in ResultIds(init) || id == results[|results| - 1].playerId by {
        forall id ensures id in ResultIds(results) <==> id in ResultIds(init) || id == results[|results| - 1].playerId {
          if id in ResultIds(results) {
            var k :| 0 <= k < |results| && ResultIds(results)[k] == id;
            if k < |init| {
              assert ResultIds(init)[k] == id;
            }
          }
          if id in ResultIds(init) {
            var k :| 0 <= k < |init| && ResultIds(init)[k] == id;
            assert ResultIds(results)[k] == id;
          }
          assert ResultIds(results)[|results| - 1] == results[|results| - 1].playerId;
        }
      }
    }
  }

  // ---- game lifecycle ----

  /** `stopTickLoop()`. */
  function StopTickLoop(r: RoomState): RoomState
  {
    r.(tickLoop := None, broadcastLoop := false)
  }

  /** `cleanup()`: the intervals stopped and the game dropped (phase and timeouts stay as they are). */
  function Cleanup(r: RoomState): RoomState
  {
    r.(tickLoop := None, broadcastLoop := false, gameModule := None, gameState := None)
  }

  /** `broadcastGameState()` at time now. */
  function BroadcastGameState(r: RoomState, now: int): RoomState
  {
    if r.gameModule.None? || r.gameState.None? || Falsy(r.selectedGameId) then r
    else
      var view := Serialize(r.gameState.value, now);
      var r1 := r.(prevGameState := r.gameState);
      Send(r1, Everyone, GameStateMsg(r1.seqNo, r.selectedGameId.value, view.0, view.1))
  }

  /** `endGame()`. */
  function EndGame(r: RoomState): RoomState
    requires GameWellFormed(r)
  {
    if r.gameModule.None? || r.gameState.None? || Falsy(r.selectedGameId) then r
    else
      var results := GetResults(r.gameState.value);
      var r1 := StopTickLoop(r).(sessionScores := AddScores(r.sessionScores, results));
      ShowResults(Send(r1, Everyone, GameOverMsg(r1.seqNo, r.selectedGameId.value, results)))
  }

  /** The end of `endGame()`: the game dropped, the results phase broadcast, the 5 s timer set. */
  function ShowResults(r: RoomState): RoomState
  {
    BroadcastRoomState(r.(gameModule := None, gameState := None, prevGameState := None, phase := Results)).(resultsPending := true)
  }

  /** `checkGameOver()` at time now. */
  function CheckGameOver(r: RoomState, now: int): RoomState
    requires GameWellFormed(r)
  {
    if r.gameModule.None? || r.gameState.None? then r
    else if IsGameOver(r.gameState.value, now) then EndGame(r)
    else r
  }

  /** `startGame()`, with the registry's id-to-module map and the random draws as parameters. */
  function StartGame(r: RoomState, registry: map<string, ModuleKind>, now: int, pick: nat, delay: int): RoomState
    requires IsDraw(pick, delay)
  {
    if Falsy(r.selectedGameId) then r
    else
      var gameId := r.selectedGameId.value;
      if gameId !in registry then
        Send(r, Everyone, ErrorMsg(r.seqNo, UnknownGame, UnknownGameText(gameId)))
      else
        var init := InitOf(registry[gameId], r.players, now, pick, delay);
        Launch(r, gameId, registry[gameId], init.0, init.1)
  }

  /** The rest of `startGame()` once the module exists: the countdown phase, room_state, game_starting, the timer. */
  function Launch(r: RoomState, gameId: string, kind: ModuleKind, state: GameState, config: GameConfig): RoomState
  {
    var r1 := r.(gameModule := Some(kind), gameState := Some(state), prevGameState := None, phase := Countdown);
    var r2 := BroadcastRoomState(r1);
    Send(r2, Everyone, GameStartingMsg(r2.seqNo, gameId, config, CountdownSecs)).(countdownPending := Some(kind))
  }

  // ---- connection events ----

  /** `onConnect(conn)`: the record for the id is (re)written, the first player becomes host. */
  function OnConnect(r: RoomState, id: string, name: Option<string>): RoomState
  {
    var playerName := if name.Some? && name.value != "" then name.value else DefaultName(id);
    var r1 := r.(players := Roster.Set(r.players, InfoId, PlayerInfo(id, playerName, false, true)));
    var r2 := if Falsy(r1.hostId) then r1.(hostId := Some(id)) else r1;
    BroadcastRoomState(r2)
  }

  /** `onClose(conn)`. */
  function OnClose(r: RoomState, id: string): RoomState
  {
    match Roster.IndexOf(r.players, InfoId, id)
    case None => r
    case Some(i) =>
      var r1 := Depart(r, id, i);
      var r2 := if r1.hostId == Some(id) then TransferHost(r1) else r1;
      CloseFinish(r2)
  }

  /**
   * The record at position i leaves: during a live game it stays, marked
   * disconnected, and the module is told; otherwise it is deleted.
   */
  function Depart(r: RoomState, id: string, i: nat): RoomState
    requires i < |r.players|
  {
    if r.phase == Playing && r.gameModule.Some? && r.gameState.Some? then
      r.(players := r.players[i := r.players[i].(connected := false)],
         gameState := Some(OnPlayerDisconnect(r.gameState.value, id)))
    else r.(players := Roster.Delete(r.players, InfoId, id))
  }

  /** The end of `onClose`: an emptied room is cleaned up, otherwise the new roster is broadcast. */
  function CloseFinish(r: RoomState): RoomState
  {
    if |r.players| == 0 then Cleanup(r) else BroadcastRoomState(r)
  }

  // ---- message handlers ----

  function HandleSelectGame(r: RoomState, sender: string, gameId: string): RoomState
  {
    if r.hostId != Some(sender) then SendError(r, sender, NotHost, NotHostSelectText)
    else if r.phase != Lobby then r
    else BroadcastRoomState(r.(selectedGameId := Some(gameId), players := ClearReady(r.players)))
  }

  function HandleReady(r: RoomState, sender: string, ready: bool): RoomState
  {
    if r.phase != Lobby then r
    else
      match Roster.IndexOf(r.players, InfoId, sender)
      case None => r
      case Some(i) => BroadcastRoomState(r.(players := r.players[i := r.players[i].(ready := ready)]))
  }

  function HandleStartGame(r: RoomState, sender: string, registry: map<string, ModuleKind>, now: int, pick: nat, delay: int): RoomState
    requires IsDraw(pick, delay)
  {
    if r.hostId != Some(sender) then SendError(r, sender, NotHost, NotHostStartText)
    else if r.phase != Lobby || Falsy(r.selectedGameId) then SendError(r, sender, NoGame, NoGameText)
    else if !AllReady(r.players) then SendError(r, sender, NotReady, NotReadyText)
    else StartGame(r, registry, now, pick, delay)
  }

  function HandleGameInput(r: RoomState, sender: string, payload: Json, now: int): RoomState
    requires GameWellFormed(r)
  {
    if r.phase != Playing || r.gameModule.None? || r.gameState.None? then r
    else
      var r1 := r.(gameState := Some(OnInput(r.gameState.value, sender, payload, now)));
      if TimingOf(r.gameModule.value).mode == TurnBased then CheckGameOver(BroadcastGameState(r1, now), now)
      else r1
  }

  /**
   * `handleGameInput` as written. The reaction-speed module declares a
   * real-time timing and the type-racer class declares none, so reading
   * `timing.mode` either skips the turn-based branch or throws after the input
   * has been applied: for both modules only the game state changes.
   */
  function HandleGameInputAsWritten(r: RoomState, sender: string, payload: Json, now: int): RoomState
  {
    if r.phase != Playing || r.gameModule.None? || r.gameState.None? then r
    else r.(gameState := Some(OnInput(r.gameState.value, sender, payload, now)))
  }

  function HandleLeave(r: RoomState, sender: string): RoomState
  {
    var r1 := r.(players := Roster.Delete(r.players, InfoId, sender));
    var r2 := if r1.hostId == Some(sender) then TransferHost(r1) else r1;
    BroadcastRoomState(r2)
  }

  /** `onMessage(message, sender)`: unknown message types (and `join_room`) are ignored. */
  function OnMessage(r: RoomState, sender: string, frame: Frame, registry: map<string, ModuleKind>,
                     now: int, pick: nat, delay: int): RoomState
    requires GameWellFormed(r) && IsDraw(pick, delay)
  {
    match frame
    case Unparsable => SendError(r, sender, InvalidMessage, ParseErrorText)
    case Parsed(m) =>
      match m
      case SelectGame(gameId) => HandleSelectGame(r, sender, gameId)
      case Ready(ready) => HandleReady(r, sender, ready)
      case StartGame => HandleStartGame(r, sender, registry, now, pick, delay)
      case GameInput(_, payload) => HandleGameInput(r, sender, payload, now)
      case LeaveRoom => HandleLeave(r, sender)
      case JoinRoom(_) => r
      case Unrecognized(_) => r
  }

  // ---- timer callbacks ----

  /** The 3 s countdown timeout: playing, with the module's intervals for a real-time game. */
  function CountdownElapsed(r: RoomState, now: int): RoomState
    requires r.countdownPending.Some?
  {
    var kind := r.countdownPending.value;
    var r1 := BroadcastGameState(BroadcastRoomState(r.(countdownPending := None, phase := Playing)), now);
    if TimingOf(kind).mode == Realtime then r1.(lastTickTime := now, tickLoop := Some(kind), broadcastLoop := true)
    else r1
  }

  /** One run of the tick interval at time now (delay: the draw a new round would use). */
  function TickElapsed(r: RoomState, now: int, delay: int): RoomState
    requires r.tickLoop.Some? && GameWellFormed(r) && ReactionSpeed.IsDelay(delay)
  {
    if r.gameState.None? || !HasTick(r.tickLoop.value) then r
    else
      TickOfValid(r.gameState.value, now, delay);
      CheckGameOver(r.(lastTickTime := now, gameState := Some(TickOf(r.gameState.value, now, delay))), now)
  }

  /** One run of the broadcast interval. */
  function BroadcastElapsed(r: RoomState, now: int): RoomState
    requires r.broadcastLoop
  {
    if r.phase == Playing then BroadcastGameState(r, now) else r
  }

  /** The 5 s results timeout: back to the lobby, nobody ready, disconnected players gone. */
  function ResultsElapsed(r: RoomState): RoomState
    requires r.resultsPending
  {
    BroadcastRoomState(r.(resultsPending := false, phase := Lobby, players := RemoveDisconnected(ClearReady(r.players))))
  }
}
