/**
 * The PartyKit room server, `RoomParty`, as an object whose fields its
 * handlers update in place. Every method is specified by the function of
 * `RoomModel` with the same name: the fields afterwards, read as a
 * `RoomState`, are that function of the fields before. The public handlers
 * (connect, message, close and the four timer callbacks) also keep the room
 * invariant.
 *
 * Outgoing frames are appended to `outbox`; the random draws a game start
 * uses and the clock are parameters.
 */
module Room {
  import opened Wrappers
  import opened Protocol
  import opened Messages
  import opened RoomModel
  import GameEngine
  import Roster
  import GameRegistry
  import ReactionSpeed
  import RoomProperties

  class RoomParty {
    /** `room.id`, the room code. */
    const roomId: string
    /** The server's module registry, which `createGameModule` reads. */
    const registry: GameRegistry.Registry

    var phase: Phase
    /** The `players` Map's values in insertion order. */
    var players: seq<PlayerInfo>
    var hostId: Option<string>
    var selectedGameId: Option<string>
    var sessionScores: map<string, int>
    var gameModule: Option<GameEngine.ModuleKind>
    var gameState: Option<GameEngine.GameState>
    var prevGameState: Option<GameEngine.GameState>
    /** The tick interval, with the module its closure captured. */
    var tickLoop: Option<GameEngine.ModuleKind>
    /** Whether the broadcast interval is live. */
    var broadcastLoop: bool
    var lastTickTime: int
    /** `seq`: the sequence number the next outgoing message takes. */
    var seqNo: nat
    /** Every frame sent so far, oldest first. */
    var outbox: seq<Outbound>
    /** The pending 3 s start timeout, with the module its closure captured. */
    var countdownPending: Option<GameEngine.ModuleKind>
    /** Whether the 5 s return-to-lobby timeout is pending. */
    var resultsPending: bool

    /** The fields as a value. */
    ghost function Snapshot(): RoomState
      reads this
    {
      RoomState(roomId, phase, players, hostId, selectedGameId, sessionScores, gameModule, gameState,
                prevGameState, tickLoop, broadcastLoop, lastTickTime, seqNo, outbox, countdownPending, resultsPending)
    }

    ghost predicate Valid()
      reads this
    {
      RoomModel.Valid(Snapshot())
    }

    constructor (roomId: string, registry: GameRegistry.Registry)
      ensures this.roomId == roomId && this.registry == registry
      ensures Snapshot() == Initial(roomId)
      ensures Valid()
    {
      this.roomId := roomId;
      this.registry := registry;
      phase := Lobby;
      players := [];
      hostId := None;
      selectedGameId := None;
      sessionScores := map[];
      gameModule := None;
      gameState := None;
      prevGameState := None;
      tickLoop := None;
      broadcastLoop := false;
      lastTickTime := 0;
      seqNo := 0;
      outbox := [];
      countdownPending := None;
      resultsPending := false;
      new;
      InitialValid(roomId);
    }

    // ---- connection events ----

    method OnConnect(id: string, name: Option<string>)
      requires Valid()
      modifies this
      ensures Snapshot() == RoomModel.OnConnect(old(Snapshot()), id, name)
      ensures Valid()
    {
      RoomProperties.OnConnectValid(Snapshot(), id, name);
      Join(id, name);
      BroadcastRoomState();
    }

    /** The record for id is (re)written and, when there is no host, id becomes host. */
    method Join(id: string, name: Option<string>)
      modifies this
      ensures var playerName := if name.Some? && name.value != "" then name.value else DefaultName(id);
              var r1 := old(Snapshot()).(players := Roster.Set(old(players), InfoId, PlayerInfo(id, playerName, false, true)));
              Snapshot() == if Falsy(old(hostId)) then r1.(hostId := Some(id)) else r1
    {
      var playerName := if name.Some? && name.value != "" then name.value else DefaultName(id);
      players := Roster.Set(players, InfoId, PlayerInfo(id, playerName, false, true));
      if Falsy(hostId) {
        hostId := Some(id);
      }
    }

    method OnMessage(sender: string, frame: Frame, now: int, pick: nat, delay: int)
      requires Valid() && GameEngine.IsDraw(pick, delay)
      modifies this
      ensures Snapshot() == RoomModel.OnMessage(old(Snapshot()), sender, frame, registry.modules, now, pick, delay)
      ensures Valid()
    {
      RoomProperties.OnMessageValid(Snapshot(), sender, frame, registry.modules, now, pick, delay);
      match frame
      case Unparsable =>
        SendError(sender, InvalidMessage, ParseErrorText);
      case Parsed(m) =>
        match m
        case SelectGame(gameId) => HandleSelectGame(sender, gameId);
        case Ready(ready) => HandleReady(sender, ready);
        case StartGame => HandleStartGame(sender, now, pick, delay);
        case GameInput(_, payload) => HandleGameInput(sender, payload, now);
        case LeaveRoom => HandleLeave(sender);
        case JoinRoom(_) =>
        case Unrecognized(_) =>
    }

    method OnClose(id: string)
      requires Valid()
      modifies this
      ensures Snapshot() == RoomModel.OnClose(old(Snapshot()), id)
      ensures Valid()
    {
      RoomProperties.OnCloseValid(Snapshot(), id);
      var found := Roster.IndexOf(players, InfoId, id);
      if found.None? {
        return;
      }
      Depart(id, found.value);
      if hostId == Some(id) {
        TransferHost();
      }
      CloseFinish();
    }

    method Depart(id: string, i: nat)
      requires i < |players|
      modifies this
      ensures Snapshot() == RoomModel.Depart(old(Snapshot()), id, i)
    {
      if phase == Playing && gameModule.Some? && gameState.Some? {
        players := players[i := players[i].(connected := false)];
        gameState := Some(GameEngine.OnPlayerDisconnect(gameState.value, id));
      } else {
        players := Roster.Delete(players, InfoId, id);
      }
    }

    method CloseFinish()
      modifies this
      ensures Snapshot() == RoomModel.CloseFinish(old(Snapshot()))
    {
      if |players| == 0 {
        Cleanup();
      } else {
        BroadcastRoomState();
      }
    }

    // ---- message handlers ----

    method HandleSelectGame(sender: string, gameId: string)
      modifies this
      ensures Snapshot() == RoomModel.HandleSelectGame(old(Snapshot()), sender, gameId)
    {
      if hostId != Some(sender) {
        SendError(sender, NotHost, NotHostSelectText);
        return;
      }
      if phase != Lobby {
        return;
      }
      selectedGameId := Some(gameId);
      ClearReadyFlags();
      BroadcastRoomState();
    }

    method HandleReady(sender: string, ready: bool)
      modifies this
      ensures Snapshot() == RoomModel.HandleReady(old(Snapshot()), sender, ready)
    {
      if phase != Lobby {
        return;
      }
      var found := Roster.IndexOf(players, InfoId, sender);
      if found.Some? {
        var i := found.value;
        players := players[i := players[i].(ready := ready)];
        BroadcastRoomState();
      }
    }

    method HandleStartGame(sender: string, now: int, pick: nat, delay: int)
      requires GameEngine.IsDraw(pick, delay)
      modifies this
      ensures Snapshot() == RoomModel.HandleStartGame(old(Snapshot()), sender, registry.modules, now, pick, delay)
    {
      if hostId != Some(sender) {
        SendError(sender, NotHost, NotHostStartText);
        return;
      }
      if phase != Lobby || Falsy(selectedGameId) {
        SendError(sender, NoGame, NoGameText);
        return;
      }
      if !AllReady(players) {
        SendError(sender, NotReady, NotReadyText);
        return;
      }
      StartGame(now, pick, delay);
    }

    method HandleGameInput(sender: string, payload: Json, now: int)
      requires GameWellFormed(Snapshot())
      modifies this
      ensures Snapshot() == RoomModel.HandleGameInput(old(Snapshot()), sender, payload, now)
    {
      if phase != Playing || gameModule.None? || gameState.None? {
        return;
      }
      gameState := Some(GameEngine.OnInput(gameState.value, sender, payload, now));
      if GameEngine.TimingOf(gameModule.value).mode == TurnBased {
        BroadcastGameState(now);
        CheckGameOver(now);
      }
    }

    method HandleLeave(sender: string)
      modifies this
      ensures Snapshot() == RoomModel.HandleLeave(old(Snapshot()), sender)
    {
      players := Roster.Delete(players, InfoId, sender);
      if hostId == Some(sender) {
        TransferHost();
      }
      BroadcastRoomState();
    }

    // ---- game lifecycle ----

    method StartGame(now: int, pick: nat, delay: int)
      requires GameEngine.IsDraw(pick, delay)
      modifies this
      ensures Snapshot() == RoomModel.StartGame(old(Snapshot()), registry.modules, now, pick, delay)
    {
      if Falsy(selectedGameId) {
        return;
      }
      var gameId := selectedGameId.value;
      var created := registry.CreateGameModule(gameId);
      if created.None? {
        Send(Everyone, ErrorMsg(seqNo, UnknownGame, UnknownGameText(gameId)));
        return;
      }
      var kind := created.value;
      var state, config := GameEngine.Init(kind, players, now, pick, delay);
      Launch(gameId, kind, state, config);
    }

    method Launch(gameId: string, kind: GameEngine.ModuleKind, state: GameEngine.GameState, config: GameEngine.GameConfig)
      modifies this
      ensures Snapshot() == RoomModel.Launch(old(Snapshot()), gameId, kind, state, config)
    {
      Arm(kind, state);
      BroadcastRoomState();
      Announce(gameId, kind, config);
    }

    /** The state `startGame` installs before it announces the start. */
    method Arm(kind: GameEngine.ModuleKind, state: GameEngine.GameState)
      modifies this
      ensures Snapshot() == old(Snapshot()).(gameModule := Some(kind), gameState := Some(state), prevGameState := None, phase := Countdown)
    {
      gameModule := Some(kind);
      gameState := Some(state);
      prevGameState := None;
      phase := Countdown;
    }

    /** `game_starting` to everybody, then the 3 s timeout is armed. */
    method Announce(gameId: string, kind: GameEngine.ModuleKind, config: GameEngine.GameConfig)
      modifies this
      ensures Snapshot() == RoomModel.Send(old(Snapshot()), Everyone, GameStartingMsg(old(seqNo), gameId, config, CountdownSecs)).(countdownPending := Some(kind))
    {
      Send(Everyone, GameStartingMsg(seqNo, gameId, config, CountdownSecs));
      countdownPending := Some(kind);
    }

    method BroadcastGameState(now: int)
      modifies this
      ensures Snapshot() == RoomModel.BroadcastGameState(old(Snapshot()), now)
    {
      if gameModule.None? || gameState.None? || Falsy(selectedGameId) {
        return;
      }
      var view := GameEngine.Serialize(gameState.value, now);
      prevGameState := gameState;
      Send(Everyone, GameStateMsg(seqNo, selectedGameId.value, view.0, view.1));
    }

    method CheckGameOver(now: int)
      requires GameWellFormed(Snapshot())
      modifies this
      ensures Snapshot() == RoomModel.CheckGameOver(old(Snapshot()), now)
    {
      if gameModule.None? || gameState.None? {
        return;
      }
      if GameEngine.IsGameOver(gameState.value, now) {
        EndGame();
      }
    }

    method EndGame()
      requires GameWellFormed(Snapshot())
      modifies this
      ensures Snapshot() == RoomModel.EndGame(old(Snapshot()))
    {
      if gameModule.None? || gameState.None? || Falsy(selectedGameId) {
        return;
      }
      StopTickLoop();
      var results := GameEngine.GetResults(gameState.value);
      AddResultScores(results);
      Send(Everyone, GameOverMsg(seqNo, selectedGameId.value, results));
      ShowResults();
    }

    method ShowResults()
      modifies this
      ensures Snapshot() == RoomModel.ShowResults(old(Snapshot()))
    {
      DropGame();
      BroadcastRoomState();
      resultsPending := true;
    }

    /** The module and both game states are released and the room shows results. */
    method DropGame()
      modifies this
      ensures Snapshot() == old(Snapshot()).(gameModule := None, gameState := None, prevGameState := None, phase := Results)
    {
      gameModule := None;
      gameState := None;
      prevGameState := None;
      phase := Results;
    }

    /** The loop of `endGame` over the results, adding each score to its player's session total. */
    method AddResultScores(results: seq<GameResult>)
      modifies this
      ensures Snapshot() == old(Snapshot()).(sessionScores := AddScores(old(sessionScores), results))
    {
      var i := 0;
      while i < |results|
        invariant 0 <= i <= |results|
        invariant Snapshot() == old(Snapshot()).(sessionScores := AddScores(old(sessionScores), results[..i]))
      {
        var x := results[i];
        assert results[..i + 1][..i] == results[..i];
        sessionScores := sessionScores[x.playerId := ScoreOf(sessionScores, x.playerId) + x.score];
        i := i + 1;
      }
      assert results[..i] == results;
    }

    // ---- timer callbacks ----

    /** The start timeout: playing, a first room_state and game_state, and the intervals of a real-time game. */
    method CountdownElapsed(now: int)
      requires Valid() && countdownPending.Some?
      modifies this
      ensures Snapshot() == RoomModel.CountdownElapsed(old(Snapshot()), now)
      ensures Valid()
    {
      RoomProperties.CountdownElapsedValid(Snapshot(), now);
      var kind := countdownPending.value;
      countdownPending := None;
      phase := Playing;
      BroadcastRoomState();
      BroadcastGameState(now);
      if GameEngine.TimingOf(kind).mode == Realtime {
        StartLoops(kind, now);
      }
    }

    /** `startTickLoop`: both intervals live, with the module their closures capture. */
    method StartLoops(kind: GameEngine.ModuleKind, now: int)
      modifies this
      ensures Snapshot() == old(Snapshot()).(lastTickTime := now, tickLoop := Some(kind), broadcastLoop := true)
    {
      lastTickTime := now;
      tickLoop := Some(kind);
      broadcastLoop := true;
    }

    /** One run of the tick interval. */
    method TickElapsed(now: int, delay: int)
      requires Valid() && tickLoop.Some? && ReactionSpeed.IsDelay(delay)
      modifies this
      ensures Snapshot() == RoomModel.TickElapsed(old(Snapshot()), now, delay)
      ensures Valid()
    {
      RoomProperties.TickElapsedValid(Snapshot(), now, delay);
      if gameState.None? || !GameEngine.HasTick(tickLoop.value) {
        return;
      }
      lastTickTime := now;
      GameEngine.TickOfValid(gameState.value, now, delay);
      var next := GameEngine.Tick(gameState.value, now, delay);
      gameState := Some(next);
      CheckGameOver(now);
    }

    /** One run of the broadcast interval. */
    method BroadcastElapsed(now: int)
      requires Valid() && broadcastLoop
      modifies this
      ensures Snapshot() == RoomModel.BroadcastElapsed(old(Snapshot()), now)
      ensures Valid()
    {
      RoomProperties.BroadcastElapsedValid(Snapshot(), now);
      if phase == Playing {
        BroadcastGameState(now);
      }
    }

    /** The results timeout: lobby, ready flags cleared, disconnected players dropped. */
    method ResultsElapsed()
      requires Valid() && resultsPending
      modifies this
      ensures Snapshot() == RoomModel.ResultsElapsed(old(Snapshot()))
      ensures Valid()
    {
      RoomProperties.ResultsElapsedValid(Snapshot());
      resultsPending := false;
      phase := Lobby;
      ClearReadyFlags();
      RemoveDisconnectedPlayers();
      BroadcastRoomState();
    }

    // ---- helpers ----

    /** `for (const p of this.players.values()) p.ready = false`. */
    method ClearReadyFlags()
      modifies this
      ensures Snapshot() == old(Snapshot()).(players := ClearReady(old(players)))
    {
      var i := 0;
      while i < |players|
        invariant 0 <= i <= |players| == |old(players)|
        invariant forall k :: 0 <= k < i ==> players[k] == old(players)[k].(ready := false)
        invariant forall k :: i <= k < |players| ==> players[k] == old(players)[k]
        invariant Snapshot() == old(Snapshot()).(players := players)
      {
        players := players[i := players[i].(ready := false)];
        i := i + 1;
      }
    }

    /** Deleting every disconnected entry while iterating the map: the kept entries in order. */
    method RemoveDisconnectedPlayers()
      modifies this
      ensures Snapshot() == old(Snapshot()).(players := RemoveDisconnected(old(players)))
    {
      var kept: seq<PlayerInfo> := [];
      var i := 0;
      while i < |players|
        invariant 0 <= i <= |players|
        invariant kept == RemoveDisconnected(players[..i])
        invariant Snapshot() == old(Snapshot())
      {
        assert players[..i + 1][..i] == players[..i];
        if players[i].connected {
          kept := kept + [players[i]];
        }
        i := i + 1;
      }
      assert players[..i] == players;
      players := kept;
    }

    /** `transferHost()`: the first connected entry in insertion order, or nobody. */
    method TransferHost()
      modifies this
      ensures Snapshot() == RoomModel.TransferHost(old(Snapshot()))
    {
      var i := 0;
      while i < |players| && !players[i].connected
        invariant 0 <= i <= |players|
        invariant forall k :: 0 <= k < i ==> !players[k].connected
      {
        i := i + 1;
      }
      var first := FirstConnectedIndex(players);
      if i < |players| {
        assert first == Some(i);
        hostId := Some(players[i].id);
      } else {
        hostId := None;
      }
    }

    method Send(target: Target, m: ServerMessage)
      modifies this
      ensures Snapshot() == RoomModel.Send(old(Snapshot()), target, m)
    {
      outbox := outbox + [Outbound(target, m)];
      seqNo := seqNo + 1;
    }

    method BroadcastRoomState()
      modifies this
      ensures Snapshot() == RoomModel.BroadcastRoomState(old(Snapshot()))
    {
      Send(Everyone, RoomStateMsg(seqNo, roomId, phase, players, HostIdText(hostId), selectedGameId, sessionScores));
    }

    method SendError(id: string, code: ErrorCode, message: string)
      modifies this
      ensures Snapshot() == RoomModel.SendError(old(Snapshot()), id, code, message)
    {
      Send(Only(id), ErrorMsg(seqNo, code, message));
    }

    method StopTickLoop()
      modifies this
      ensures Snapshot() == RoomModel.StopTickLoop(old(Snapshot()))
    {
      tickLoop := None;
      broadcastLoop := false;
    }

    method Cleanup()
      modifies this
      ensures Snapshot() == RoomModel.Cleanup(old(Snapshot()))
    {
      StopTickLoop();
      gameModule := None;
      gameState := None;
    }
  }
}
