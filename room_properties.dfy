/**
 * What the room state machine guarantees: every event keeps the room
 * invariant (unique ids, a connected host or none, sequence numbers in sending
 * order, timers matching the phase) and only appends to the outbox, and the
 * handlers have the outcomes the room promises its clients.
 */
module RoomProperties {
  import opened Wrappers
  import opened Protocol
  import GameEngine
  import opened Messages
  import opened RoomModel
  import Roster
  import ReactionSpeed

  // ---- roster facts ----

  lemma NoneConnectedAfterDelete(players: seq<PlayerInfo>, id: string)
    requires forall i :: 0 <= i < |players| ==> !players[i].connected
    ensures var r := Roster.Delete(players, InfoId, id); forall i :: 0 <= i < |r| ==> !r[i].connected
  {
    var r := Roster.Delete(players, InfoId, id);
    forall i | 0 <= i < |r| ensures !r[i].connected {
      assert r[i] in r;
    }
  }

  lemma ConnectedAfterDelete(players: seq<PlayerInfo>, id: string, h: string)
    requires IsConnectedId(players, h) && h != id
    ensures IsConnectedId(Roster.Delete(players, InfoId, id), h)
  {
    var j :| 0 <= j < |players| && players[j].id == h && players[j].connected;
    var r := Roster.Delete(players, InfoId, id);
    match Roster.IndexOf(players, InfoId, id)
    case None =>
    case Some(i) =>
      assert InfoId(players[i]) == id;
      var left, right := players[..i], players[i + 1..];
      assert r == left + right;
      if j < i {
        assert r[j] == left[j] == players[j];
      } else {
        assert j > i;
        assert r[j - 1] == right[j - 1 - i] == players[j];
      }
  }

  lemma ConnectedAfterUpdate(players: seq<PlayerInfo>, i: nat, p: PlayerInfo, h: string)
    requires i < |players| && IsConnectedId(players, h)
    requires p.id == players[i].id && (players[i].id == h ==> p.connected)
    ensures IsConnectedId(players[i := p], h)
  {
    var j :| 0 <= j < |players| && players[j].id == h && players[j].connected;
    assert players[i := p][j].id == h && players[i := p][j].connected;
  }

  lemma ConnectedAfterClearReady(players: seq<PlayerInfo>, h: string)
    requires IsConnectedId(players, h)
    ensures IsConnectedId(ClearReady(players), h)
  {
    var j :| 0 <= j < |players| && players[j].id == h && players[j].connected;
    assert ClearReady(players)[j].id == h;
  }

  lemma DistinctAfterClearReady(players: seq<PlayerInfo>)
    requires Roster.Distinct(players, InfoId)
    ensures Roster.Distinct(ClearReady(players), InfoId)
  {
    var r := ClearReady(players);
    forall i, j | 0 <= i < j < |r| ensures InfoId(r[i]) != InfoId(r[j]) {
      assert r[i].id == players[i].id && r[j].id == players[j].id;
    }
  }

  lemma DistinctAfterUpdate(players: seq<PlayerInfo>, i: nat, p: PlayerInfo)
    requires i < |players| && Roster.Distinct(players, InfoId) && p.id == players[i].id
    ensures Roster.Distinct(players[i := p], InfoId)
  {
    var r := players[i := p];
    forall a, b | 0 <= a < b < |r| ensures InfoId(r[a]) != InfoId(r[b]) {
      assert r[a].id == players[a].id && r[b].id == players[b].id;
    }
  }

  // ---- the invariant is kept by every event ----

  lemma BroadcastRoomStateWellNumbered(r: RoomState)
    requires RosterValid(r) && OutboxValid(r)
    ensures RosterValid(BroadcastRoomState(r)) && OutboxValid(BroadcastRoomState(r))
    ensures BroadcastRoomState(r) == r.(seqNo := r.seqNo + 1, outbox := r.outbox + [Outbound(Everyone, RoomStateMessage(r))])
  {
  }

  lemma BroadcastRoomStateValid(r: RoomState)
    requires Valid(r)
    ensures Valid(BroadcastRoomState(r))
    ensures BroadcastRoomState(r).outbox == r.outbox + [Outbound(Everyone, RoomStateMessage(r))]
  {
  }

  lemma SendErrorValid(r: RoomState, id: string, code: ErrorCode, message: string)
    requires Valid(r)
    ensures Valid(SendError(r, id, code, message))
    ensures SendError(r, id, code, message) == r.(seqNo := r.seqNo + 1,
              outbox := r.outbox + [Outbound(Only(id), ErrorMsg(r.seqNo, code, message))])
  {
  }

  lemma BroadcastGameStateValid(r: RoomState, now: int)
    requires Valid(r)
    ensures Valid(BroadcastGameState(r, now))
    ensures r.outbox <= BroadcastGameState(r, now).outbox
    ensures BroadcastGameState(r, now).(outbox := r.outbox, seqNo := r.seqNo, prevGameState := r.prevGameState) == r
  {
  }

  /** Ending a game from the playing phase leads to a valid results phase with its timer set. */
  lemma EndGameValid(r: RoomState)
    requires Valid(r) && r.phase == Playing
    ensures Valid(EndGame(r))
    ensures r.outbox <= EndGame(r).outbox
  {
    if r.gameModule.Some? && r.gameState.Some? && !Falsy(r.selectedGameId) {
      var results := GameEngine.GetResults(r.gameState.value);
      var r1 := StopTickLoop(r).(sessionScores := AddScores(r.sessionScores, results));
      var m := GameOverMsg(r1.seqNo, r.selectedGameId.value, results);
      SendValid(r1, Everyone, m);
      var r2 := Send(r1, Everyone, m);
      assert r2.outbox == r.outbox + [Outbound(Everyone, m)];
      ShowResultsValid(r2);
    }
  }

  /** Showing results from a playing room whose loops are stopped keeps the invariant. */
  lemma ShowResultsValid(r: RoomState)
    requires RosterValid(r) && OutboxValid(r)
    requires r.tickLoop.None? && !r.broadcastLoop && r.countdownPending.None? && !r.resultsPending
    ensures Valid(ShowResults(r))
    ensures r.outbox <= ShowResults(r).outbox
  {
    var r1 := r.(gameModule := None, gameState := None, prevGameState := None, phase := Results);
    BroadcastRoomStateWellNumbered(r1);
  }

  lemma CheckGameOverValid(r: RoomState, now: int)
    requires Valid(r) && r.phase == Playing
    ensures Valid(CheckGameOver(r, now))
    ensures r.outbox <= CheckGameOver(r, now).outbox
  {
    if r.gameModule.Some? && r.gameState.Some? && GameEngine.IsGameOver(r.gameState.value, now) {
      EndGameValid(r);
    }
  }

  /** A connected player stays connected when another id's record is set. */
  lemma ConnectedAfterSet(players: seq<PlayerInfo>, x: PlayerInfo, h: string)
    requires x.connected && (h == x.id || IsConnectedId(players, h))
    ensures IsConnectedId(Roster.Set(players, InfoId, x), h)
  {
    var r := Roster.Set(players, InfoId, x);
    if h == x.id {
      var k := Roster.IndexOf(r, InfoId, x.id).value;
      assert r[k] == x;
    } else {
      var j :| 0 <= j < |players| && players[j].id == h && players[j].connected;
      assert r[j] == players[j];
    }
  }

  lemma OnConnectValid(r: RoomState, id: string, name: Option<string>)
    requires Valid(r)
    ensures Valid(OnConnect(r, id, name))
    ensures r.outbox <= OnConnect(r, id, name).outbox
  {
    var playerName := if name.Some? && name.value != "" then name.value else DefaultName(id);
    var x := PlayerInfo(id, playerName, false, true);
    var players := Roster.Set(r.players, InfoId, x);
    var r1 := r.(players := players);
    var r2 := if Falsy(r1.hostId) then r1.(hostId := Some(id)) else r1;
    if Falsy(r1.hostId) {
      ConnectedAfterSet(r.players, x, id);
    } else {
      ConnectedAfterSet(r.players, x, r.hostId.value);
    }
    assert RosterValid(r2);
    assert OutboxValid(r2) && GameWellFormed(r2) && TimersValid(r2);
    BroadcastRoomStateValid(r2);
    assert OnConnect(r, id, name) == BroadcastRoomState(r2);
  }

  /** The host left: handing the host role on restores the invariant. */
  lemma TransferHostValid(r: RoomState)
    requires Roster.Distinct(r.players, InfoId) && OutboxValid(r) && GameWellFormed(r) && TimersValid(r)
    ensures Valid(TransferHost(r))
  {
  }

  /** The last step of `onClose`: drop the game if the room is empty, else broadcast. */
  lemma CloseFinishValid(r: RoomState)
    requires Valid(r)
    ensures Valid(CloseFinish(r))
    ensures r.outbox <= CloseFinish(r).outbox
  {
  }

  lemma NoneConnectedAfterUpdate(players: seq<PlayerInfo>, i: nat, p: PlayerInfo)
    requires i < |players| && !p.connected
    requires forall j :: 0 <= j < |players| ==> !players[j].connected
    ensures var u := players[i := p]; forall j :: 0 <= j < |u| ==> !u[j].connected
  {
  }

  /** A departure keeps every part of the invariant except, when the host leaves, the host. */
  lemma DepartValid(r: RoomState, id: string, i: nat)
    requires Valid(r) && Roster.IndexOf(r.players, InfoId, id) == Some(i)
    ensures var r1 := Depart(r, id, i);
      Roster.Distinct(r1.players, InfoId) && OutboxValid(r1) && GameWellFormed(r1) && TimersValid(r1)
      && r1.outbox == r.outbox && r1.hostId == r.hostId
      && (r.hostId != Some(id) ==> RosterValid(r1))
  {
    var p := r.players[i].(connected := false);
    if r.phase == Playing && r.gameModule.Some? && r.gameState.Some? {
      DistinctAfterUpdate(r.players, i, p);
      if r.hostId.Some? && r.hostId.value != id {
        ConnectedAfterUpdate(r.players, i, p, r.hostId.value);
      } else if r.hostId.None? {
        NoneConnectedAfterUpdate(r.players, i, p);
      }
    } else {
      if r.hostId.Some? && r.hostId.value != id {
        ConnectedAfterDelete(r.players, id, r.hostId.value);
      } else if r.hostId.None? {
        NoneConnectedAfterDelete(r.players, id);
      }
    }
  }

  lemma OnCloseValid(r: RoomState, id: string)
    requires Valid(r)
    ensures Valid(OnClose(r, id))
    ensures r.outbox <= OnClose(r, id).outbox
  {
    match Roster.IndexOf(r.players, InfoId, id)
    case None =>
    case Some(i) =>
      DepartValid(r, id, i);
      var r1 := Depart(r, id, i);
      var r2 := if r1.hostId == Some(id) then TransferHost(r1) else r1;
      if r1.hostId == Some(id) {
        TransferHostValid(r1);
      }
      CloseFinishValid(r2);
  }

  lemma HandleSelectGameValid(r: RoomState, sender: string, gameId: string)
    requires Valid(r)
    ensures Valid(HandleSelectGame(r, sender, gameId))
    ensures r.outbox <= HandleSelectGame(r, sender, gameId).outbox
  {
    if r.hostId == Some(sender) && r.phase == Lobby {
      DistinctAfterClearReady(r.players);
      ConnectedAfterClearReady(r.players, sender);
    }
  }

  lemma HandleReadyValid(r: RoomState, sender: string, ready: bool)
    requires Valid(r)
    ensures Valid(HandleReady(r, sender, ready))
    ensures r.outbox <= HandleReady(r, sender, ready).outbox
  {
    if r.phase == Lobby && Roster.IndexOf(r.players, InfoId, sender).Some? {
      var i := Roster.IndexOf(r.players, InfoId, sender).value;
      DistinctAfterUpdate(r.players, i, r.players[i].(ready := ready));
      if r.hostId.Some? {
        ConnectedAfterUpdate(r.players, i, r.players[i].(ready := ready), r.hostId.value);
      }
    }
  }

  lemma StartGameValid(r: RoomState, registry: map<string, GameEngine.ModuleKind>, now: int, pick: nat, delay: int)
    requires Valid(r) && r.phase == Lobby && GameEngine.IsDraw(pick, delay)
    ensures Valid(RoomModel.StartGame(r, registry, now, pick, delay))
    ensures r.outbox <= RoomModel.StartGame(r, registry, now, pick, delay).outbox
  {
    if !Falsy(r.selectedGameId) && r.selectedGameId.value in registry {
      var kind := registry[r.selectedGameId.value];
      GameEngine.InitValid(kind, r.players, now, pick, delay);
    }
  }

  lemma HandleStartGameValid(r: RoomState, sender: string, registry: map<string, GameEngine.ModuleKind>, now: int, pick: nat, delay: int)
    requires Valid(r) && GameEngine.IsDraw(pick, delay)
    ensures Valid(HandleStartGame(r, sender, registry, now, pick, delay))
    ensures r.outbox <= HandleStartGame(r, sender, registry, now, pick, delay).outbox
  {
    if r.hostId == Some(sender) && r.phase == Lobby && !Falsy(r.selectedGameId) && AllReady(r.players) {
      StartGameValid(r, registry, now, pick, delay);
    }
  }

  lemma HandleGameInputValid(r: RoomState, sender: string, payload: Json, now: int)
    requires Valid(r)
    ensures Valid(HandleGameInput(r, sender, payload, now))
    ensures r.outbox <= HandleGameInput(r, sender, payload, now).outbox
  {
    if r.phase == Playing && r.gameModule.Some? && r.gameState.Some? {
      var r1 := r.(gameState := Some(GameEngine.OnInput(r.gameState.value, sender, payload, now)));
      assert Valid(r1);
      if GameEngine.TimingOf(r.gameModule.value).mode == TurnBased {
        BroadcastGameStateValid(r1, now);
        CheckGameOverValid(BroadcastGameState(r1, now), now);
      }
    }
  }

  lemma HandleLeaveValid(r: RoomState, sender: string)
    requires Valid(r)
    ensures Valid(HandleLeave(r, sender))
    ensures r.outbox <= HandleLeave(r, sender).outbox
  {
    var r1 := r.(players := Roster.Delete(r.players, InfoId, sender));
    if r.hostId == Some(sender) {
      TransferHostValid(r1);
      BroadcastRoomStateValid(TransferHost(r1));
    } else {
      if r.hostId.Some? {
        ConnectedAfterDelete(r.players, sender, r.hostId.value);
      } else {
        NoneConnectedAfterDelete(r.players, sender);
      }
      assert RosterValid(r1);
      BroadcastRoomStateValid(r1);
    }
  }

  /** Every message, whatever its content or sender, keeps the invariant and only appends to the outbox. */
  lemma OnMessageValid(r: RoomState, sender: string, frame: Frame, registry: map<string, GameEngine.ModuleKind>,
                       now: int, pick: nat, delay: int)
    requires Valid(r) && GameEngine.IsDraw(pick, delay)
    ensures Valid(OnMessage(r, sender, frame, registry, now, pick, delay))
    ensures r.outbox <= OnMessage(r, sender, frame, registry, now, pick, delay).outbox
  {
    var r' := OnMessage(r, sender, frame, registry, now, pick, delay);
    match frame
    case Unparsable =>
      SendErrorValid(r, sender, InvalidMessage, ParseErrorText);
    case Parsed(m) =>
      match m
      case SelectGame(gameId) =>
        assert r' == HandleSelectGame(r, sender, gameId);
        HandleSelectGameValid(r, sender, gameId);
      case Ready(ready) =>
        assert r' == HandleReady(r, sender, ready);
        HandleReadyValid(r, sender, ready);
      case StartGame =>
        assert r' == HandleStartGame(r, sender, registry, now, pick, delay);
        HandleStartGameValid(r, sender, registry, now, pick, delay);
      case GameInput(_, payload) =>
        assert r' == HandleGameInput(r, sender, payload, now);
        HandleGameInputValid(r, sender, payload, now);
      case LeaveRoom =>
        assert r' == HandleLeave(r, sender);
        HandleLeaveValid(r, sender);
      case JoinRoom(_) =>
      case Unrecognized(_) =>
  }

  lemma CountdownElapsedValid(r: RoomState, now: int)
    requires Valid(r) && r.countdownPending.Some?
    ensures Valid(CountdownElapsed(r, now))
    ensures r.outbox <= CountdownElapsed(r, now).outbox
  {
    var r0 := r.(countdownPending := None, phase := Playing);
    assert Valid(r0);
    BroadcastRoomStateValid(r0);
    BroadcastGameStateValid(BroadcastRoomState(r0), now);
  }

  lemma TickElapsedValid(r: RoomState, now: int, delay: int)
    requires Valid(r) && r.tickLoop.Some? && ReactionSpeed.IsDelay(delay)
    ensures Valid(TickElapsed(r, now, delay))
    ensures r.outbox <= TickElapsed(r, now, delay).outbox
  {
    if r.gameState.Some? && GameEngine.HasTick(r.tickLoop.value) {
      GameEngine.TickOfValid(r.gameState.value, now, delay);
      var r1 := r.(lastTickTime := now, gameState := Some(GameEngine.TickOf(r.gameState.value, now, delay)));
      CheckGameOverValid(r1, now);
    }
  }

  lemma BroadcastElapsedValid(r: RoomState, now: int)
    requires Valid(r) && r.broadcastLoop
    ensures Valid(BroadcastElapsed(r, now))
    ensures r.outbox <= BroadcastElapsed(r, now).outbox
  {
    BroadcastGameStateValid(r, now);
  }

  /** Every player the results timeout keeps was a connected player of the old roster. */
  lemma KeptWereConnected(players: seq<PlayerInfo>)
    ensures forall i :: 0 <= i < |RemoveDisconnected(ClearReady(players))| ==>
      IsConnectedId(players, RemoveDisconnected(ClearReady(players))[i].id)
  {
    var cleared := ClearReady(players);
    var kept := RemoveDisconnected(cleared);
    forall i | 0 <= i < |kept| ensures IsConnectedId(players, kept[i].id) {
      assert kept[i] in kept;
      var k :| 0 <= k < |cleared| && cleared[k] == kept[i];
      assert players[k].id == kept[i].id && players[k].connected;
    }
  }

  /** The results timeout keeps a connected host, and it keeps ids unique. */
  lemma KeptRosterValid(r: RoomState)
    requires RosterValid(r)
    ensures RosterValid(r.(players := RemoveDisconnected(ClearReady(r.players))))
  {
    var cleared := ClearReady(r.players);
    DistinctAfterClearReady(r.players);
    RemoveDisconnectedDistinct(cleared);
    KeptWereConnected(r.players);
    var kept := RemoveDisconnected(cleared);
    if r.hostId.Some? {
      var h := r.hostId.value;
      var j :| 0 <= j < |r.players| && r.players[j].id == h && r.players[j].connected;
      assert cleared[j] in kept;
      var k :| 0 <= k < |kept| && kept[k] == cleared[j];
      assert IsConnectedId(kept, h);
    }
  }

  lemma ResultsElapsedValid(r: RoomState)
    requires Valid(r) && r.resultsPending
    ensures Valid(ResultsElapsed(r))
    ensures r.outbox <= ResultsElapsed(r).outbox
  {
    KeptRosterValid(r);
    var r1 := r.(resultsPending := false, phase := Lobby, players := RemoveDisconnected(ClearReady(r.players)));
    assert RosterValid(r1);
    BroadcastRoomStateValid(r1);
  }
}
