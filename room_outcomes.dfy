/**
 * What each room event does, beyond keeping the invariant: who may select and
 * start a game and which error each refusal sends, how scores accumulate,
 * what a departure does to the roster and the host, and what the results
 * timeout leaves behind.
 */
module RoomOutcomes {
  import opened Wrappers
  import opened Protocol
  import GameEngine
  import opened Messages
  import opened RoomModel
  import Roster
  import ReactionSpeed

  /** Only the sequence counter and the outbox differ between the two room states. */
  predicate SameFields(a: RoomState, b: RoomState)
  {
    a.(seqNo := b.seqNo, outbox := b.outbox) == b
  }

  /** Exactly one message, m to target, was sent from a to b. */
  predicate SentOne(a: RoomState, b: RoomState, target: Target, m: ServerMessage)
  {
    b.outbox == a.outbox + [Outbound(target, m)] && b.seqNo == a.seqNo + 1
  }

  // ---- malformed and ignored messages ----

  /** Text that is not JSON: an INVALID_MESSAGE error to the sender, nothing else changes. */
  lemma UnparsableRejected(r: RoomState, sender: string, registry: map<string, GameEngine.ModuleKind>,
                           now: int, pick: nat, delay: int)
    requires GameWellFormed(r) && GameEngine.IsDraw(pick, delay)
    ensures var r' := OnMessage(r, sender, Unparsable, registry, now, pick, delay);
            SameFields(r, r') && SentOne(r, r', Only(sender), ErrorMsg(r.seqNo, InvalidMessage, ParseErrorText))
  {
  }

  /** `join_room` and message types the switch does not list change nothing and send nothing. */
  lemma UnhandledIgnored(r: RoomState, sender: string, m: ClientMessage, registry: map<string, GameEngine.ModuleKind>,
                         now: int, pick: nat, delay: int)
    requires GameWellFormed(r) && GameEngine.IsDraw(pick, delay)
    requires m.JoinRoom? || m.Unrecognized?
    ensures OnMessage(r, sender, Parsed(m), registry, now, pick, delay) == r
  {
  }

  // ---- selecting a game ----

  /** A select from anyone but the host is refused with NOT_HOST, in every phase. */
  lemma SelectByNonHostRefused(r: RoomState, sender: string, gameId: string)
    requires r.hostId != Some(sender)
    ensures var r' := HandleSelectGame(r, sender, gameId);
            SameFields(r, r') && SentOne(r, r', Only(sender), ErrorMsg(r.seqNo, NotHost, NotHostSelectText))
  {
  }

  /** The host's select in the lobby records the game and clears every ready flag, then broadcasts. */
  lemma SelectByHostInLobby(r: RoomState, sender: string, gameId: string)
    requires r.hostId == Some(sender) && r.phase == Lobby
    ensures var r' := HandleSelectGame(r, sender, gameId);
            && r'.selectedGameId == Some(gameId)
            && |r'.players| == |r.players|
            && (forall i :: 0 <= i < |r.players| ==> r'.players[i] == r.players[i].(ready := false))
            && r'.phase == Lobby && r'.hostId == r.hostId
            && SentOne(r, r', Everyone, RoomStateMessage(r'.(seqNo := r.seqNo, outbox := r.outbox)))
  {
  }

  /** Outside the lobby the host's select changes nothing and sends nothing. */
  lemma SelectOutsideLobbyIgnored(r: RoomState, sender: string, gameId: string)
    requires r.hostId == Some(sender) && r.phase != Lobby
    ensures HandleSelectGame(r, sender, gameId) == r
  {
  }

  // ---- ready ----

  /** A ready toggle changes the sender's flag alone, and only in the lobby for a known sender. */
  lemma ReadyOutcome(r: RoomState, sender: string, ready: bool)
    requires Roster.Distinct(r.players, InfoId)
    ensures var r' := HandleReady(r, sender, ready);
            if r.phase != Lobby || Roster.IndexOf(r.players, InfoId, sender).None? then r' == r
            else
              && |r'.players| == |r.players|
              && (forall i :: 0 <= i < |r.players| ==>
                    r'.players[i] == if r.players[i].id == sender then r.players[i].(ready := ready) else r.players[i])
              && r'.outbox == r.outbox + [Outbound(Everyone, RoomStateMessage(r'.(seqNo := r.seqNo, outbox := r.outbox)))]
  {
    if r.phase == Lobby && Roster.IndexOf(r.players, InfoId, sender).Some? {
      var k := Roster.IndexOf(r.players, InfoId, sender).value;
      forall i | 0 <= i < |r.players| && r.players[i].id == sender ensures i == k {
        Roster.IndexOfUnique(r.players, InfoId, i);
      }
    }
  }

  // ---- starting a game ----

  /** The error a refused start sends, in the order the checks are made. */
  function StartRefusal(r: RoomState, sender: string): Option<(ErrorCode, string)>
  {
    if r.hostId != Some(sender) then Some((NotHost, NotHostStartText))
    else if r.phase != Lobby || Falsy(r.selectedGameId) then Some((NoGame, NoGameText))
    else if !AllReady(r.players) then Some((NotReady, NotReadyText))
    else None
  }

  /** A refused start sends the sender that one error and changes nothing else. */
  lemma StartRefused(r: RoomState, sender: string, registry: map<string, GameEngine.ModuleKind>, now: int, pick: nat, delay: int)
    requires GameEngine.IsDraw(pick, delay)
    requires StartRefusal(r, sender).Some?
    ensures var (code, text) := StartRefusal(r, sender).value;
            var r' := HandleStartGame(r, sender, registry, now, pick, delay);
            SameFields(r, r') && SentOne(r, r', Only(sender), ErrorMsg(r.seqNo, code, text))
  {
  }

  /** Every accepted start whose game is unknown broadcasts UNKNOWN_GAME and stays in the lobby. */
  lemma StartUnknownGame(r: RoomState, sender: string, registry: map<string, GameEngine.ModuleKind>, now: int, pick: nat, delay: int)
    requires GameEngine.IsDraw(pick, delay)
    requires StartRefusal(r, sender).None? && r.selectedGameId.value !in registry
    ensures var r' := HandleStartGame(r, sender, registry, now, pick, delay);
            && SameFields(r, r')
            && SentOne(r, r', Everyone, ErrorMsg(r.seqNo, UnknownGame, UnknownGameText(r.selectedGameId.value)))
  {
  }

  /**
   * An accepted start of a registered game: the module's initial state, the
   * countdown phase and timer, a room_state and then a game_starting with a
   * 3 s countdown.
   */
  lemma StartSucceeds(r: RoomState, sender: string, registry: map<string, GameEngine.ModuleKind>, now: int, pick: nat, delay: int)
    requires GameEngine.IsDraw(pick, delay)
    requires StartRefusal(r, sender).None? && r.selectedGameId.value in registry
    ensures var r' := HandleStartGame(r, sender, registry, now, pick, delay);
            var kind := registry[r.selectedGameId.value];
            var init := GameEngine.InitOf(kind, r.players, now, pick, delay);
            && r'.phase == Countdown
            && r'.gameModule == Some(kind) && r'.gameState == Some(init.0) && r'.countdownPending == Some(kind)
            && r'.prevGameState.None?
            && r'.(phase := r.phase, gameModule := r.gameModule, gameState := r.gameState,
                   prevGameState := r.prevGameState, countdownPending := r.countdownPending,
                   seqNo := r.seqNo, outbox := r.outbox) == r
            && |r'.outbox| == |r.outbox| + 2 && r'.outbox[..|r.outbox|] == r.outbox
            && r'.outbox[|r.outbox|].msg.RoomStateMsg? && r'.outbox[|r.outbox|].msg.phase == Countdown
            && r'.outbox[|r.outbox| + 1] ==
                 Outbound(Everyone, GameStartingMsg(r.seqNo + 1, r.selectedGameId.value, init.1, CountdownSecs))
  {
  }

  /** Only the host, from the lobby, with a game selected and everybody ready, moves the room into the countdown. */
  lemma StartRequiresHostAndReady(r: RoomState, sender: string, registry: map<string, GameEngine.ModuleKind>, now: int, pick: nat, delay: int)
    requires GameEngine.IsDraw(pick, delay)
    requires r.phase == Lobby
    ensures HandleStartGame(r, sender, registry, now, pick, delay).phase == Countdown <==>
              && r.hostId == Some(sender)
              && !Falsy(r.selectedGameId)
              && AllReady(r.players)
              && r.selectedGameId.value in registry
  {
  }

  // ---- game input ----

  /** Outside a live game an input changes nothing. */
  lemma InputOutsideGameIgnored(r: RoomState, sender: string, payload: Json, now: int)
    requires GameWellFormed(r)
    requires r.phase != Playing || r.gameModule.None?
    ensures HandleGameInput(r, sender, payload, now) == r
  {
  }

  /** In a real-time game an input updates the game state only; the broadcast interval sends it later. */
  lemma RealtimeInputSendsNothing(r: RoomState, sender: string, payload: Json, now: int)
    requires GameWellFormed(r) && r.phase == Playing && r.gameModule.Some?
    requires GameEngine.TimingOf(r.gameModule.value).mode == Realtime
    ensures HandleGameInput(r, sender, payload, now) ==
              r.(gameState := Some(GameEngine.OnInput(r.gameState.value, sender, payload, now)))
  {
  }

  /** No module object carries a turn-based `timing` of its own. */
  lemma NoDeclaredTurnBasedTiming(kind: GameEngine.ModuleKind)
    ensures GameEngine.DeclaredTiming(kind).None? || GameEngine.DeclaredTiming(kind).value.mode == Realtime
    ensures GameEngine.DeclaredTiming(kind).None? <==> GameEngine.TimingOf(kind).mode == TurnBased
  {
  }

  /**
   * As written, a type-racer input is applied but nothing is sent and the
   * game-over check never runs: the room stays in the playing phase even when
   * every player has typed the whole passage.
   */
  lemma TypeRacerInputAsWrittenNeverEnds(r: RoomState, sender: string, payload: Json, now: int)
    requires r.phase == Playing && r.gameModule == Some(GameEngine.TypeRacerModule) && r.gameState.Some?
    ensures var r' := HandleGameInputAsWritten(r, sender, payload, now);
            && r'.phase == Playing && r'.gameModule == r.gameModule
            && r'.outbox == r.outbox && r'.seqNo == r.seqNo
            && r'.gameState == Some(GameEngine.OnInput(r.gameState.value, sender, payload, now))
  {
  }

  /**
   * With the turn-based timing the type-racer is registered with, every
   * accepted input is broadcast as a full game_state and an input that ends
   * the race moves the room to the results phase.
   */
  lemma TypeRacerInputBroadcastsAndEnds(r: RoomState, sender: string, payload: Json, now: int)
    requires Valid(r) && r.phase == Playing && r.gameModule == Some(GameEngine.TypeRacerModule)
    ensures var r' := HandleGameInput(r, sender, payload, now);
            var next := GameEngine.OnInput(r.gameState.value, sender, payload, now);
            && |r'.outbox| > |r.outbox| && r'.outbox[..|r.outbox|] == r.outbox
            && r'.outbox[|r.outbox|] ==
                 Outbound(Everyone, GameStateMsg(r.seqNo, r.selectedGameId.value, GameEngine.Serialize(next, now).0, false))
            && (GameEngine.IsGameOver(next, now) <==> r'.phase == Results)
            && (!GameEngine.IsGameOver(next, now) ==> r'.phase == Playing && r'.gameState == Some(next))
  {
    var next := GameEngine.OnInput(r.gameState.value, sender, payload, now);
    var r1 := r.(gameState := Some(next));
    var m := GameStateMsg(r.seqNo, r.selectedGameId.value, GameEngine.Serialize(next, now).0, false);
    var r2 := BroadcastGameState(r1, now);
    assert r2 == r1.(prevGameState := Some(next), seqNo := r.seqNo + 1, outbox := r.outbox + [Outbound(Everyone, m)]);
    assert HandleGameInput(r, sender, payload, now) == CheckGameOver(r2, now);
    if GameEngine.IsGameOver(next, now) {
      EndGameOutcome(r2);
      var r' := EndGame(r2);
      assert r'.outbox[..|r2.outbox|] == r2.outbox;
      assert r'.outbox[..|r.outbox|] == r2.outbox[..|r.outbox|];
    }
  }

  // ---- ending a game ----

  /**
   * `endGame()`: the intervals stop, every player's session total grows by
   * this game's score, game_over and then room_state go out, the room shows
   * results and the 5 s timer is set.
   */
  lemma EndGameOutcome(r: RoomState)
    requires GameWellFormed(r) && r.gameModule.Some? && !Falsy(r.selectedGameId)
    ensures var r' := EndGame(r);
            var results := GameEngine.GetResults(r.gameState.value);
            && r'.phase == Results && r'.resultsPending
            && r'.gameModule.None? && r'.gameState.None? && r'.prevGameState.None?
            && r'.tickLoop.None? && !r'.broadcastLoop
            && (forall id :: id in r'.sessionScores <==> id in r.sessionScores || id in ResultIds(results))
            && (forall id :: ScoreOf(r'.sessionScores, id) == ScoreOf(r.sessionScores, id) + TotalFor(results, id))
            && r'.players == r.players && r'.hostId == r.hostId
            && |r'.outbox| == |r.outbox| + 2 && r'.outbox[..|r.outbox|] == r.outbox
            && r'.outbox[|r.outbox|] == Outbound(Everyone, GameOverMsg(r.seqNo, r.selectedGameId.value, results))
            && r'.outbox[|r.outbox| + 1].msg.RoomStateMsg? && r'.outbox[|r.outbox| + 1].msg.phase == Results
  {
    AddScoresSpec(r.sessionScores, GameEngine.GetResults(r.gameState.value));
  }

  /** A single result naming the player adds exactly that score to their total. */
  lemma OneResultAddsItsScore(m: map<string, int>, x: GameResult)
    ensures ScoreOf(AddScores(m, [x]), x.playerId) == ScoreOf(m, x.playerId) + x.score
    ensures forall id :: id != x.playerId ==> ScoreOf(AddScores(m, [x]), id) == ScoreOf(m, id)
  {
    assert [x][..0] == [];
  }

  // ---- leaving ----

  /**
   * A closed connection during a live game keeps its roster entry, marked
   * disconnected; in any other phase the entry is removed. A host who leaves
   * hands the role to the first connected player left, or to nobody.
   */
  lemma OnCloseOutcome(r: RoomState, id: string)
    requires Valid(r)
    requires Roster.IndexOf(r.players, InfoId, id).Some?
    ensures var r' := OnClose(r, id);
            var i := Roster.IndexOf(r.players, InfoId, id).value;
            && (r.phase == Playing && r.gameModule.Some? ==>
                  r'.players == r.players[i := r.players[i].(connected := false)]
                  && r'.gameState == Some(GameEngine.OnPlayerDisconnect(r.gameState.value, id)))
            && (!(r.phase == Playing && r.gameModule.Some?) ==>
                  r'.players == Roster.Delete(r.players, InfoId, id) && Roster.IndexOf(r'.players, InfoId, id).None?)
            && (r.hostId == Some(id) ==>
                  r'.hostId == (match FirstConnectedIndex(r'.players)
                                case None => None
                                case Some(k) => Some(r'.players[k].id)))
            && (r.hostId != Some(id) ==> r'.hostId == r.hostId)
            && r'.phase == r.phase
  {
    var i := Roster.IndexOf(r.players, InfoId, id).value;
    var r1 := Depart(r, id, i);
    var r2 := if r1.hostId == Some(id) then TransferHost(r1) else r1;
    assert OnClose(r, id) == CloseFinish(r2);
    CloseFinishKeepsRoster(r2);
    assert r2.players == r1.players && r2.phase == r.phase;
    if r.hostId == Some(id) {
      assert r2.hostId == (match FirstConnectedIndex(r2.players) case None => None case Some(k) => Some(r2.players[k].id));
    }
  }

  /** A close from a connection that holds no roster entry changes nothing and sends nothing. */
  lemma OnCloseUnknownIgnored(r: RoomState, id: string)
    requires Roster.IndexOf(r.players, InfoId, id).None?
    ensures OnClose(r, id) == r
  {
  }

  lemma CloseFinishKeepsRoster(r: RoomState)
    ensures CloseFinish(r).players == r.players && CloseFinish(r).hostId == r.hostId && CloseFinish(r).phase == r.phase
    ensures |r.players| > 0 ==> CloseFinish(r).gameState == r.gameState
  {
  }

  /** When the last player leaves, the intervals stop and the game is dropped; otherwise room_state goes out. */
  lemma LastCloseCleansUp(r: RoomState, id: string)
    requires Valid(r)
    requires Roster.IndexOf(r.players, InfoId, id).Some?
    ensures var r' := OnClose(r, id);
            if |r'.players| == 0 then
              r'.gameModule.None? && r'.gameState.None? && r'.tickLoop.None? && !r'.broadcastLoop && r'.outbox == r.outbox
            else
              |r'.outbox| == |r.outbox| + 1 && r'.outbox[|r.outbox|].msg.RoomStateMsg?
  {
    var i := Roster.IndexOf(r.players, InfoId, id).value;
    var r1 := Depart(r, id, i);
    var r2 := if r1.hostId == Some(id) then TransferHost(r1) else r1;
    assert r2.outbox == r.outbox;
    assert OnClose(r, id) == CloseFinish(r2);
    CloseFinishOutcome(r2);
  }

  lemma CloseFinishOutcome(r: RoomState)
    ensures var r' := CloseFinish(r);
            if |r'.players| == 0 then
              r'.gameModule.None? && r'.gameState.None? && r'.tickLoop.None? && !r'.broadcastLoop && r'.outbox == r.outbox
            else
              |r'.outbox| == |r.outbox| + 1 && r'.outbox[|r.outbox|].msg.RoomStateMsg?
  {
  }

  /** `leave_room` drops the entry and hands on the host role, but never stops a running game, even in an empty room. */
  lemma LeaveKeepsGame(r: RoomState, sender: string)
    requires Roster.Distinct(r.players, InfoId)
    ensures var r' := HandleLeave(r, sender);
            && Roster.IndexOf(r'.players, InfoId, sender).None?
            && r'.gameModule == r.gameModule && r'.gameState == r.gameState
            && r'.tickLoop == r.tickLoop && r'.broadcastLoop == r.broadcastLoop
            && r'.phase == r.phase
  {
  }

  // ---- back to the lobby ----

  /**
   * The results timeout: the lobby again, every remaining player connected
   * and not ready, every connected player kept, the host and the session
   * totals unchanged.
   */
  lemma ResultsElapsedOutcome(r: RoomState)
    requires r.resultsPending
    ensures var r' := ResultsElapsed(r);
            && r'.phase == Lobby && !r'.resultsPending
            && (forall i :: 0 <= i < |r'.players| ==> r'.players[i].connected && !r'.players[i].ready)
            && (forall p :: p in r.players && p.connected ==> p.(ready := false) in r'.players)
            && (forall p :: p in r'.players ==> p.(ready := true) in r.players || p in r.players)
            && r'.hostId == r.hostId && r'.sessionScores == r.sessionScores
            && SentOne(r, r', Everyone, RoomStateMessage(r'.(seqNo := r.seqNo, outbox := r.outbox)))
  {
    var cleared := ClearReady(r.players);
    forall p | p in r.players && p.connected ensures p.(ready := false) in RemoveDisconnected(cleared) {
      var j :| 0 <= j < |r.players| && r.players[j] == p;
      assert cleared[j] == p.(ready := false);
    }
    forall p | p in RemoveDisconnected(cleared) ensures p.(ready := true) in r.players || p in r.players {
      var j :| 0 <= j < |cleared| && cleared[j] == p;
      assert r.players[j] == p.(ready := true) || r.players[j] == p;
    }
    forall i | 0 <= i < |RemoveDisconnected(cleared)|
      ensures RemoveDisconnected(cleared)[i].connected && !RemoveDisconnected(cleared)[i].ready
    {
      var p := RemoveDisconnected(cleared)[i];
      assert p in RemoveDisconnected(cleared);
      var j :| 0 <= j < |cleared| && cleared[j] == p;
    }
  }

  // ---- a room that cannot leave the playing phase ----

  /** The playing phase with no game and no results timer: no event ever leaves it. */
  predicate Stuck(r: RoomState)
  {
    r.phase == Playing && r.gameModule.None? && r.gameState.None? && !r.resultsPending && r.countdownPending.None?
  }

  /**
   * The countdown timeout sets the phase to playing without checking that the
   * game still exists: when the last player leaves during the countdown, the
   * room is playing with no game once the timer fires.
   */
  lemma EmptiedCountdownGetsStuck(r: RoomState, now: int)
    requires Valid(r) && r.phase == Countdown && |r.players| == 1
    ensures var r1 := OnClose(r, r.players[0].id);
            r1.countdownPending.Some? && Stuck(CountdownElapsed(r1, now))
  {
    Roster.IndexOfUnique(r.players, InfoId, 0);
    var r1 := OnClose(r, r.players[0].id);
    assert |Roster.Delete(r.players, InfoId, r.players[0].id)| == 0;
    assert r1.gameModule.None?;
  }

  lemma StuckStaysOnConnect(r: RoomState, id: string, name: Option<string>)
    requires Stuck(r)
    ensures Stuck(OnConnect(r, id, name))
  {
  }

  lemma StuckStaysOnClose(r: RoomState, id: string)
    requires Stuck(r)
    ensures Stuck(OnClose(r, id))
  {
  }

  /** No message moves a stuck room: select and start are refused outside the lobby, inputs find no game. */
  lemma StuckStaysOnMessage(r: RoomState, sender: string, frame: Frame, registry: map<string, GameEngine.ModuleKind>,
                            now: int, pick: nat, delay: int)
    requires Stuck(r) && GameWellFormed(r) && GameEngine.IsDraw(pick, delay)
    ensures Stuck(OnMessage(r, sender, frame, registry, now, pick, delay))
  {
    var r' := OnMessage(r, sender, frame, registry, now, pick, delay);
    match frame
    case Unparsable =>
    case Parsed(m) =>
      match m
      case SelectGame(gameId) => assert r' == HandleSelectGame(r, sender, gameId);
      case Ready(ready) => assert r' == HandleReady(r, sender, ready);
      case StartGame => assert r' == HandleStartGame(r, sender, registry, now, pick, delay);
      case GameInput(_, payload) => assert r' == HandleGameInput(r, sender, payload, now);
      case LeaveRoom => assert r' == HandleLeave(r, sender);
      case JoinRoom(_) =>
      case Unrecognized(_) =>
  }

  lemma StuckStaysOnTimers(r: RoomState, now: int, delay: int)
    requires Stuck(r) && GameWellFormed(r) && ReactionSpeed.IsDelay(delay)
    ensures r.tickLoop.Some? ==> Stuck(TickElapsed(r, now, delay))
    ensures r.broadcastLoop ==> Stuck(BroadcastElapsed(r, now))
  {
  }
}
