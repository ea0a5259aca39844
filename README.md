# Party-game room server: a verified model

This project models in Dafny the server core of a browser party-game platform.
A room is a PartyKit server (`RoomParty`). People join it by a four-letter room code.
The room holds a lobby in which the host selects a game and everybody marks themselves ready.
It then runs a game through a 3 s countdown, a playing phase and a 5 s results screen.
After that it is back in the lobby, with the session scores accumulated.

Games are modules behind one interface: `init`, `onInput`, `tick`, `serialize`, `isGameOver`, `getResults` and `onPlayerDisconnect`.
Two modules are modelled:

- **type-racer**: a turn-based race to type a passage.
- **reaction-speed**: a real-time five-round reaction test driven by a 20 Hz tick.

The server registry that maps a game id to its module is modelled too, as is the room-code generator.

Layout, following the program's structure:

- `wrappers.dfy` (`Option`) and `protocol.dfy`: the shared value types (`PlayerInfo`, `GameResult`, `GameTiming`, `GameMeta`, parsed JSON).
- `numeric.dfy`: JavaScript's `Math.round` of a quotient and `Math.max`/`Math.min`.
- `sorting.dfy`: the stable comparison sort `Array.prototype.sort`, as a stable insertion sort on a two-part key.
- `roster.dfy`: the insertion-ordered `Map` the room and both modules keep players in.
- `room_code.dfy`: the code generator.
- `type_racer.dfy`, `reaction_speed.dfy`: the two game modules. Their states are values; each operation returns the next state.
- `game_engine.dfy`: the module interface. It dispatches on a tagged union of module states.
- `game_registry.dfy`: the registry, a class with its two tables.
- `messages.dfy`: client and server messages after JSON decoding.
- `room_model.dfy`: the room state machine as functions of a `RoomState` value. It also holds the invariant `Valid`:
  - ids are unique;
  - the host is a connected player, and there is a host whenever someone is connected;
  - message i carries sequence number i;
  - the game module and its state come and go together;
  - the timers match the phase.
- `room_properties.dfy`: every event keeps `Valid` and only appends to the outbox.
- `room_outcomes.dfy`: what each event does, for example:
  - who may select and start a game;
  - which error each refusal sends;
  - how session scores add up;
  - what a departure does to the roster and the host role;
  - what the results timeout leaves behind.
- `room.dfy`: the class `RoomParty`. Its fields are updated in place by its handlers, and its loops are the source's loops. Every method is proved to produce the `RoomModel` function of the fields it started from. The public handlers are proved to keep `Valid()`.

The following are parameters:

- the clock (`now`, in place of `Date.now()`);
- the random draws (a medium passage index; a signal delay in [2000, 5000) ms);
- the incoming frames, already decoded.

Outgoing frames are appended to an outbox with their target: everybody, or the one connection that caused them.

Where the code and the repository's tests or declared types disagree, the model follows the code:

- The reaction-speed tests expect position scores 100/50/10. The code gives `max(100 − 20·i, 10)`, that is 100, 80, 60, 40, 20, then 10; the model has the latter (`ReactionSpeed.PositionScores`).
- The room tests exercise `sanitizeName`, `isValidClientMessage`, a `return_to_lobby` message and a minimum player count. None of these exist in room-party.ts, so none is modelled.
- `room_state` carries no `yourId` and no game settings. `startGame` calls `init` without settings, so the type-racer passage is always a medium one and its duration 60 s.
- `handleLeave` never runs `cleanup`, even when the room becomes empty (`RoomOutcomes.LeaveKeepsGame`).
- The countdown timeout sets the phase to playing without checking that the game still exists. If the last player leaves during the countdown, the room ends up playing with no game, and no event ever takes it out of that phase (`RoomOutcomes.EmptiedCountdownGetsStuck` and the `StuckStays…` lemmas).
- A disconnected type-racer player is marked finished with no finish time. The sort treats the missing time as 0, so that player ranks ahead of every real finisher (`TypeRacer.DisconnectedRanksAheadOfFinishers`).

One place departs from the code: the handling of a game input. As written, `handleGameInput` reads `timing` from the type-racer module object, which declares none, so the handler throws after applying the input (see "## Findings").
The room's message path (`RoomModel.OnMessage`, `RoomParty.OnMessage`) uses the intended behaviour instead: the timing the module is registered with (`RoomModel.HandleGameInput`).
The code as written is `RoomModel.HandleGameInputAsWritten`, with its consequence proved in `RoomOutcomes.TypeRacerInputAsWrittenNeverEnds`.

## Model

| member | source | states |
|---|---|---|
| Numeric.Max | apps/server/src/game/modules/type-racer.ts:98 | the larger argument: at least both and equal to one of them |
| Numeric.Min | apps/server/src/game/modules/type-racer.ts:98 | the smaller argument: at most both and equal to one of them |
| Numeric.RoundDiv | apps/server/src/game/modules/reaction-speed.ts:253 | `Math.round(p / q)`: the integer nearest p/q, halves rounded up |
| Numeric.RoundDivMonotone | apps/server/src/game/modules/type-racer.ts:194 | rounding a quotient preserves the order of numerators |
| Numeric.RoundDivExact | apps/server/src/game/modules/type-racer.ts:134 | an exact quotient rounds to itself |
| Numeric.PositionScore | apps/server/src/game/modules/reaction-speed.ts:222 | `max(100 − 20·i, 10)` lies in [10, 100], is 100 − 20·i for the first five places and 10 after |
| Protocol.Field | apps/server/src/game/modules/type-racer.ts:210-216 | a field is present exactly when the value is an object holding it |
| Protocol.ResultIds | apps/server/src/room-party.ts:277-280 | the ids of the results, one per result, in order |
| Sorting.SortBy | apps/server/src/game/modules/type-racer.ts:177-187 | the comparator sorts of both modules as one stable sort on a two-part key; `Sorting.SortByCorrect` proves it a sorted, stable permutation |
| Sorting.InsertPermutes | apps/server/src/game/modules/type-racer.ts:180-187 | inserting adds exactly the element to the multiset |
| Sorting.InsertSorted | apps/server/src/game/modules/type-racer.ts:180-187 | inserting into a sorted sequence keeps it sorted |
| Sorting.InsertWithKey | apps/server/src/game/modules/type-racer.ts:180-187 | inserting keeps the relative order of elements with equal key (stability) |
| Sorting.SortByPermutes | apps/server/src/game/modules/reaction-speed.ts:215-217 | the sort is a permutation of its input |
| Sorting.SortBySorted | apps/server/src/game/modules/reaction-speed.ts:215-217 | the sort's output is ordered by the key |
| Sorting.SortByStable | apps/server/src/game/modules/reaction-speed.ts:215-217 | elements with equal keys keep their input order, as `Array.prototype.sort` guarantees |
| Sorting.SortByCorrect | apps/server/src/game/modules/type-racer.ts:177-187 | the sort result has the same length and multiset, is sorted and is stable |
| Roster.IndexOf | apps/server/src/room-party.ts:85 | `Map.get`: the first position holding the key, None exactly when no entry has it |
| Roster.IndexOfUnique | apps/server/src/room-party.ts:129 | with unique keys, an entry's key is found at that entry's position |
| Roster.Set | apps/server/src/room-party.ts:42-47 | `Map.set`: an existing key is replaced in place, a new key is appended; other entries are untouched; keys stay unique |
| Roster.Delete | apps/server/src/room-party.ts:97 | `Map.delete`: the entry is cut out with the rest in order; the key is then absent |
| Roster.FromList | apps/server/src/game/modules/type-racer.ts:84-94 | a Map filled by `set` in list order has unique keys |
| Roster.FromListElements | apps/server/src/game/modules/type-racer.ts:84-94 | every entry of the filled Map comes from the list |
| Roster.FromListCover | apps/server/src/game/modules/type-racer.ts:84-94 | every key of the list is present in the filled Map |
| Roster.FromListOfDistinct | apps/server/src/game/modules/reaction-speed.ts:67-75 | a list with unique keys fills the Map with exactly the list, in order |
| RoomCode.AlphabetWellFormed | packages/shared/src/utils/room-code.ts:1-2 | the alphabet has 23 distinct upper-case letters, sorted, and is exactly the letters other than O, I and L |
| RoomCode.GenerateRoomCode | packages/shared/src/utils/room-code.ts:4-10 | four characters, the k-th being the alphabet entry at draw k, each a code letter |
| TypeRacer.Passages | apps/server/src/game/modules/type-racer.ts:80-81 | the passage list for the `passageLength` setting: short, long, or medium otherwise; non-empty with non-empty passages |
| TypeRacer.DurationSecs | apps/server/src/game/modules/type-racer.ts:96-98 | the time limit clamped to [15, 300], or 60 when the setting is not a number |
| TypeRacer.FreshRecords | apps/server/src/game/modules/type-racer.ts:86-93 | one fresh record per player info, with its id and name |
| TypeRacer.InitPlayersSpec | apps/server/src/game/modules/type-racer.ts:84-94 | the player Map has unique ids and all records fresh; each record comes from an info, and every info id is present |
| TypeRacer.InitPlayersInOrder | apps/server/src/game/modules/type-racer.ts:84-94 | for infos with unique ids, the Map holds exactly their records, in order |
| TypeRacer.BuildPlayers | apps/server/src/game/modules/type-racer.ts:84-94 | the loop builds the player Map `InitPlayers` describes |
| TypeRacer.Init | apps/server/src/game/modules/type-racer.ts:76-108 | the state is the drawn passage, the built players, start time now and the clamped duration; the config echoes text and duration; the state is valid |
| TypeRacer.FreshStateValid | apps/server/src/game/modules/type-racer.ts:99-107 | a non-empty text with unique fresh players is a valid state |
| TypeRacer.WordCount | apps/server/src/game/modules/type-racer.ts:133 | the number of whitespace-separated words: at most the length, 0 exactly when all characters are spaces |
| TypeRacer.Wpm | apps/server/src/game/modules/type-racer.ts:130-135 | words per minute after a positive elapsed time is never negative |
| TypeRacer.OnInput | apps/server/src/game/modules/type-racer.ts:110-144 | text, start and duration are unchanged; ids and names are kept; finished players are untouched; validity is preserved |
| TypeRacer.OnInputIgnored | apps/server/src/game/modules/type-racer.ts:115-125 | input from an unknown or finished player, of the wrong shape, too long or not a prefix leaves the state as it was |
| TypeRacer.OnInputAccepted | apps/server/src/game/modules/type-racer.ts:127-141 | accepted input changes that player only: typed is the input; finished iff it is the whole text; the finish time becomes now then |
| TypeRacer.OnPlayerDisconnect | apps/server/src/game/modules/type-racer.ts:200-207 | a known player is marked finished, nothing else changes; an unknown one changes nothing; validity is preserved |
| TypeRacer.Serialize | apps/server/src/game/modules/type-racer.ts:146-167 | never a delta; text, duration and elapsed time; one view per player in Map order, with progress as typed/text characters |
| TypeRacer.GameOverIsPermanent | apps/server/src/game/modules/type-racer.ts:169-174 | once over (all finished or timed out), the race stays over later, after any input and after any disconnect |
| TypeRacer.IsGameOver | apps/server/src/game/modules/type-racer.ts:169-174 | `isGameOver` at time now: every player finished, or more than the duration elapsed since the start; `TypeRacer.GameOverIsPermanent` proves it stays true |
| TypeRacer.IsTypeRacerInput | apps/server/src/game/modules/type-racer.ts:210-216 | the input guard: an object whose `typed` field is a string; `TypeRacer.OnInputIgnored` proves any other input a no-op |
| TypeRacer.Ranking | apps/server/src/game/modules/type-racer.ts:177-187 | a permutation of the players: finished first, by finish time (missing counts as 0), then unfinished by most typed; stable |
| TypeRacer.GetResults | apps/server/src/game/modules/type-racer.ts:176-198 | one result per player in ranking order, rank i+1; in a valid state every score lies in [0, 100]; the unfinished score is rounded exactly (see "## Left out") |
| TypeRacer.Score | apps/server/src/game/modules/type-racer.ts:189-195 | a finisher gets the position score, anyone else round(50 · typed / text); `TypeRacer.UnfinishedScoreBound` bounds the latter to [0, 50] (exact rounding: see "## Left out") |
| TypeRacer.UnfinishedScoreBound | apps/server/src/game/modules/type-racer.ts:194 | an unfinished player's `round(progress·50)` lies in [0, 50] |
| TypeRacer.DisconnectedRanksAheadOfFinishers | apps/server/src/game/modules/type-racer.ts:180-187 | a player finished by disconnect (no finish time) ranks before anyone who finished at a positive time |
| ReactionSpeed.FreshRecords | apps/server/src/game/modules/reaction-speed.ts:69-74 | one fresh record per player info, with its id and name |
| ReactionSpeed.InitPlayersSpec | apps/server/src/game/modules/reaction-speed.ts:67-75 | unique ids, records with no reaction times and not tapped, every info id present |
| ReactionSpeed.BuildPlayers | apps/server/src/game/modules/reaction-speed.ts:67-75 | the loop builds the player Map `InitPlayers` describes |
| ReactionSpeed.Init | apps/server/src/game/modules/reaction-speed.ts:63-92 | round 1 started now, signal at now plus the delay, nothing shown or over, config of 5 rounds; the state is valid |
| ReactionSpeed.OnInput | apps/server/src/game/modules/reaction-speed.ts:94-126 | the round schedule is unchanged; players who tapped already are untouched; a round that is over ignores taps; validity is preserved |
| ReactionSpeed.IsReactionInput | apps/server/src/game/modules/reaction-speed.ts:256-262 | the input guard: an object whose `action` is `"tap"`; `ReactionSpeed.OnInputIgnored` proves any other input a no-op |
| ReactionSpeed.OnInputIgnored | apps/server/src/game/modules/reaction-speed.ts:99-103 | a non-tap, a finished or over round, an unknown or already-tapped player leaves the state as it was |
| ReactionSpeed.OnInputRecordsTap | apps/server/src/game/modules/reaction-speed.ts:105-123 | an accepted tap appends −1 before the signal, else now − signalAt; the round is over exactly when everybody has tapped |
| ReactionSpeed.ShowSignal | apps/server/src/game/modules/reaction-speed.ts:134-136 | the signal is shown once its time has come, nothing else changes |
| ReactionSpeed.Credit | apps/server/src/game/modules/reaction-speed.ts:143-148 | a player who has not tapped gets 3000 ms and is marked tapped; one who has is unchanged |
| ReactionSpeed.TimeOut | apps/server/src/game/modules/reaction-speed.ts:139-151 | more than 3 s after a shown signal of a running round, every missing tap is credited and the round ends; otherwise nothing changes |
| ReactionSpeed.LastTapTime | apps/server/src/game/modules/reaction-speed.ts:155-160 | `Math.max` of the last taps: −Infinity for no players, NaN exactly when some player has no tap, else the largest |
| ReactionSpeed.ResetTapped | apps/server/src/game/modules/reaction-speed.ts:172-174 | every player's tapped flag cleared, nothing else changed |
| ReactionSpeed.CreditMissing | apps/server/src/game/modules/reaction-speed.ts:143-148 | the timeout loop gives every player who has not tapped a tap and a 3000 ms time, keeping the others, in the same order |
| ReactionSpeed.ClearTapped | apps/server/src/game/modules/reaction-speed.ts:172-174 | the reset loop leaves the players at `ResetTapped` of the old ones |
| ReactionSpeed.PauseOver | apps/server/src/game/modules/reaction-speed.ts:153-162 | the pause test `now - (signalAt + max(last taps)) > 1500` with JavaScript's −Infinity and NaN; `ReactionSpeed.EndedRoundHasLastTaps` proves NaN never arises under the invariant |
| ReactionSpeed.Advance | apps/server/src/game/modules/reaction-speed.ts:153-176 | the third stage of `tick`: after the pause or 5 s, finish at round 5 or start a clean round; `ReactionSpeed.AdvanceOutcome`, `ReactionSpeed.TickProgress` and `ReactionSpeed.RoundEndsByCap` state its effect |
| ReactionSpeed.TickSpec | apps/server/src/game/modules/reaction-speed.ts:128-180 | `tick` as the three stages in order, a finished game untouched; `ReactionSpeed.Tick` is proved equal to it and `ReactionSpeed.TickPreservesValid` proves it keeps the invariant |
| ReactionSpeed.Tick | apps/server/src/game/modules/reaction-speed.ts:128-180 | the two in-place loops of `tick` compute `TickSpec`: signal, timeout, then advance or finish |
| ReactionSpeed.EndedRoundHasLastTaps | apps/server/src/game/modules/reaction-speed.ts:155-160 | in a valid ended round no player's last tap is missing, so the maximum is not NaN |
| ReactionSpeed.TickPreservesValid | apps/server/src/game/modules/reaction-speed.ts:128-180 | a tick keeps the invariant: one time per past round, a round over only when all tapped, finished only after round 5 |
| ReactionSpeed.TickProgress | apps/server/src/game/modules/reaction-speed.ts:163-176 | rounds move forward by at most one; a new round starts clean (not finished, not over, signal hidden, signal at now plus the delay, every tapped flag cleared, ids and names kept); a finished game is unchanged |
| ReactionSpeed.AdvanceOutcome | apps/server/src/game/modules/reaction-speed.ts:153-176 | after the signal and timeout stages, an over round past the 1.5 s pause or the 5 s cap finishes the game at round 5 and otherwise becomes the next round with a later signal, hidden, not over and every tapped flag cleared; a round not yet due is left as those stages left it |
| ReactionSpeed.RoundEndsByCap | apps/server/src/game/modules/reaction-speed.ts:163 | a tick more than 5 s after the signal starts the next round or finishes round 5 |
| ReactionSpeed.OnPlayerDisconnect | apps/server/src/game/modules/reaction-speed.ts:231-241 | a known player who has not tapped is credited 3000 ms; otherwise nothing changes; validity is preserved |
| ReactionSpeed.SumAdjustedBounds | apps/server/src/game/modules/reaction-speed.ts:250-253 | the penalised sum lies between n·lo and n·hi when every adjusted time does |
| ReactionSpeed.Average | apps/server/src/game/modules/reaction-speed.ts:248-254 | `getAverageReaction`: 9999 for no times, else the rounded mean with −1 counted as 500; `ReactionSpeed.AverageBounds` and `ReactionSpeed.AverageOfFalseStart` state its value |
| ReactionSpeed.AverageBounds | apps/server/src/game/modules/reaction-speed.ts:248-254 | the rounded average lies within the bounds of the adjusted times |
| ReactionSpeed.AverageOfFalseStart | apps/server/src/game/modules/reaction-speed.ts:250-252 | a false start counts as 500 ms: the average of a false start and 300 ms is 400 |
| ReactionSpeed.Serialize | apps/server/src/game/modules/reaction-speed.ts:182-205 | never a delta; round, 5 rounds, flags, and one view per player with the average |
| ReactionSpeed.SerializeHidesSchedule | apps/server/src/game/modules/reaction-speed.ts:194-202 | the broadcast does not depend on the round start or signal times |
| ReactionSpeed.FinishedHasAllRounds | apps/server/src/game/modules/reaction-speed.ts:164-165 | a valid finished game has exactly five times per player |
| ReactionSpeed.GameOverIsPermanent | apps/server/src/game/modules/reaction-speed.ts:207-209 | a finished game stays finished under input, tick and disconnect |
| ReactionSpeed.IsGameOver | apps/server/src/game/modules/reaction-speed.ts:207-209 | `isGameOver`: the finished flag; `ReactionSpeed.FinishedHasAllRounds` proves it means round 5 is over |
| ReactionSpeed.FalseStarts | apps/server/src/game/modules/reaction-speed.ts:226 | the count of −1 entries: at most the length, 0 exactly when there is none |
| ReactionSpeed.Ranking | apps/server/src/game/modules/reaction-speed.ts:212-217 | a permutation ordered by average (lower first), stable for equal averages |
| ReactionSpeed.GetResults | apps/server/src/game/modules/reaction-speed.ts:211-229 | one result per player in ranking order, rank i+1, score in [10, 100] |
| ReactionSpeed.ResultsOrdered | apps/server/src/game/modules/reaction-speed.ts:215-222 | a better place has a lower or equal average and a higher or equal score, strictly higher in the first five |
| ReactionSpeed.PositionScores | apps/server/src/game/modules/reaction-speed.ts:222 | first 100, second 80, third 60, sixth and later 10 |
| GameEngine.TimingOf | apps/server/src/game/game-registry.ts:21 | realtime exactly for reaction-speed, whose tick and broadcast rates are 20 and 10 |
| GameEngine.DeclaredTiming | apps/server/src/game/modules/reaction-speed.ts:56-61 | only reaction-speed carries a `timing` of its own, equal to its registered one |
| GameEngine.InitOf | apps/server/src/game/game-engine.ts:16 | `init` without settings: the state belongs to the module; type-racer gets a medium passage and 60 s; reaction-speed's config is 5 rounds |
| GameEngine.Init | apps/server/src/game/game-engine.ts:16 | dispatching to the module's `init` gives `InitOf` and a valid state |
| GameEngine.InitValid | apps/server/src/game/game-engine.ts:16 | every module's initial state is valid |
| GameEngine.OnInput | apps/server/src/game/game-engine.ts:19 | the state stays with its module and stays valid |
| GameEngine.TickOf | apps/server/src/game/game-engine.ts:22 | the state stays with its module; a module without `tick` is unchanged |
| GameEngine.TickOfValid | apps/server/src/game/game-engine.ts:22 | a tick keeps the state valid |
| GameEngine.Tick | apps/server/src/game/game-engine.ts:22 | the method computes `TickOf` |
| GameEngine.Serialize | apps/server/src/game/game-engine.ts:25-28 | no module sends deltas; the view belongs to the state's module and is that module's own `serialize` view |
| GameEngine.IsGameOver | apps/server/src/game/game-engine.ts:31 | `isGameOver` dispatched to the state's module, the type-racer one at time now |
| GameEngine.GetResults | apps/server/src/game/game-engine.ts:34 | one result per player, ranked 1, 2, …, scores within [0, 100] |
| GameEngine.OnPlayerDisconnect | apps/server/src/game/game-engine.ts:37 | the state stays with its module and stays valid |
| GameRegistry.Registry.Default | apps/server/src/game/game-registry.ts:5-24 | after start-up, only type-racer is registered, with its metadata |
| GameRegistry.Registry.Register | apps/server/src/game/game-registry.ts:8-11 | the module is stored under the meta's id and the meta appended |
| GameRegistry.Registry.CreateGameModule | apps/server/src/game/game-registry.ts:26-29 | a module exactly for a registered id, the one registered |
| GameRegistry.Registry.GetAvailableGames | apps/server/src/game/game-registry.ts:31-33 | the registered metadata in registration order |
| GameRegistry.DefaultLookups | apps/server/src/game/game-registry.ts:14-29 | with the default registration type-racer is found, reaction-speed is not, and nothing else is |
| Messages.CodeTextInjective | apps/server/src/room-party.ts:344-352 | distinct error codes have distinct wire spellings |
| RoomModel.InitialValid | apps/server/src/room-party.ts:20-33 | a fresh room satisfies the room invariant |
| RoomModel.SeqNumbersIncrease | apps/server/src/room-party.ts:33 | sent messages carry strictly increasing sequence numbers |
| RoomModel.SendValid | apps/server/src/room-party.ts:340-342 | sending with the current seq keeps the outbox numbered |
| RoomModel.FirstConnectedIndex | apps/server/src/room-party.ts:314 | `find(p => p.connected)`: the first connected entry, None exactly when none is connected |
| RoomModel.TransferHost | apps/server/src/room-party.ts:313-316 | the host becomes a connected player, or nobody exactly when none is connected; nothing else changes |
| RoomModel.ClearReady | apps/server/src/room-party.ts:121-123 | every ready flag cleared, the rest of each entry kept |
| RoomModel.RemoveDisconnected | apps/server/src/room-party.ts:304-306 | exactly the connected entries remain |
| RoomModel.RemoveDisconnectedDistinct | apps/server/src/room-party.ts:304-306 | removing entries keeps ids unique |
| RoomModel.AddScoresSpec | apps/server/src/room-party.ts:277-280 | a total exists for old entries and result ids; each new total is the old one (missing as 0) plus the player's scores in the results |
| RoomModel.BroadcastRoomState | apps/server/src/room-party.ts:327-338 | one room_state to everybody with phase, players, host, selection and totals; `RoomProperties.BroadcastRoomStateValid` proves it keeps the invariant |
| RoomModel.SendError | apps/server/src/room-party.ts:344-352 | one error frame to the sender; `RoomProperties.SendErrorValid` proves only seq and outbox change |
| RoomModel.StopTickLoop | apps/server/src/room-party.ts:354-363 | both intervals cleared |
| RoomModel.Cleanup | apps/server/src/room-party.ts:365-370 | intervals cleared, module and state dropped; `RoomOutcomes.LastCloseCleansUp` states it for an emptied room |
| RoomModel.OnConnect | apps/server/src/room-party.ts:37-54 | the record set, the host given if there is none, room_state sent; `RoomProperties.OnConnectValid` proves the invariant kept |
| RoomModel.OnMessage | apps/server/src/room-party.ts:56-82 | dispatch on the message type, INVALID_MESSAGE for an unparsable frame, other types ignored; game inputs with the registered timing from "## Findings"; `RoomProperties.OnMessageValid` proves the invariant kept |
| RoomModel.OnClose | apps/server/src/room-party.ts:84-109 | an unknown id is a no-op, else depart, hand on the host, then cleanup or room_state; `RoomProperties.OnCloseValid`, `RoomOutcomes.OnCloseOutcome` and `RoomOutcomes.OnCloseUnknownIgnored` state its effect |
| RoomModel.Depart | apps/server/src/room-party.ts:88-98 | in a live game the entry is marked disconnected and the module's `onPlayerDisconnect` applied, else the entry is deleted; `RoomProperties.DepartValid` proves what it keeps |
| RoomModel.CloseFinish | apps/server/src/room-party.ts:104-108 | an emptied room is cleaned up, any other gets room_state; `RoomProperties.CloseFinishValid` proves the invariant kept |
| RoomModel.HandleSelectGame | apps/server/src/room-party.ts:113-125 | NOT_HOST for others, a no-op outside the lobby, else select, clear ready flags and broadcast; `RoomOutcomes.SelectByHostInLobby` and its neighbours state each case |
| RoomModel.HandleReady | apps/server/src/room-party.ts:127-134 | in the lobby, a known sender's flag is set and room_state sent; `RoomOutcomes.ReadyOutcome` states it |
| RoomModel.HandleStartGame | apps/server/src/room-party.ts:136-153 | NOT_HOST, NO_GAME, NOT_READY in that order, else `startGame`; `RoomOutcomes.StartRefused`, `RoomOutcomes.StartSucceeds` and `RoomOutcomes.StartRequiresHostAndReady` state each case |
| RoomModel.StartGame | apps/server/src/room-party.ts:180-193 | the registry lookup: UNKNOWN_GAME to everybody, or the module's `init` and then `Launch`; `RoomOutcomes.StartUnknownGame` states the refusal |
| RoomModel.Launch | apps/server/src/room-party.ts:194-211 | module and state installed, countdown phase, room_state then game_starting, countdown timer armed; `RoomOutcomes.StartSucceeds` states it |
| RoomModel.HandleGameInput | apps/server/src/room-party.ts:155-168 | the corrected input handler from "## Findings": apply the input, and for a turn-based module broadcast and check for game over; `RoomOutcomes.TypeRacerInputBroadcastsAndEnds` states it |
| RoomModel.HandleGameInputAsWritten | apps/server/src/room-party.ts:155-168 | the input handler as written: only the game state changes; `RoomOutcomes.TypeRacerInputAsWrittenNeverEnds` states the consequence |
| RoomModel.HandleLeave | apps/server/src/room-party.ts:170-176 | the entry deleted, the host handed on, room_state sent, the game never stopped; `RoomOutcomes.LeaveKeepsGame` states it |
| RoomModel.BroadcastGameState | apps/server/src/room-party.ts:246-262 | one game_state to everybody with the module's view, previous state recorded; `RoomProperties.BroadcastGameStateValid` proves what it keeps |
| RoomModel.CheckGameOver | apps/server/src/room-party.ts:264-269 | `endGame` exactly when the module reports game over; `RoomProperties.CheckGameOverValid` proves the invariant kept |
| RoomModel.EndGame | apps/server/src/room-party.ts:271-287 | loops stopped, results added to the totals, game_over sent, then `showResults`; `RoomOutcomes.EndGameOutcome` states it |
| RoomModel.ShowResults | apps/server/src/room-party.ts:289-295 | game dropped, results phase, room_state, results timer armed; `RoomProperties.ShowResultsValid` proves the invariant kept |
| RoomModel.CountdownElapsed | apps/server/src/room-party.ts:212-220 | the countdown timeout: playing phase, room_state, game_state, and the loops for a real-time module; `RoomProperties.CountdownElapsedValid` proves the invariant kept |
| RoomModel.TickElapsed | apps/server/src/room-party.ts:229-237 | a tick-loop firing: the module's `tick`, then the game-over check; `RoomProperties.TickElapsedValid` proves the invariant kept |
| RoomModel.BroadcastElapsed | apps/server/src/room-party.ts:239-243 | a broadcast-loop firing: game_state in the playing phase, nothing otherwise; `RoomProperties.BroadcastElapsedValid` proves the invariant kept |
| RoomModel.ResultsElapsed | apps/server/src/room-party.ts:298-308 | the results timeout: lobby, ready cleared, disconnected removed, room_state; `RoomOutcomes.ResultsElapsedOutcome` states it |
| RoomProperties.ConnectedAfterDelete | apps/server/src/room-party.ts:97 | deleting another id keeps a connected player connected |
| RoomProperties.ConnectedAfterUpdate | apps/server/src/room-party.ts:89 | updating an entry keeps other players' connectedness |
| RoomProperties.ConnectedAfterSet | apps/server/src/room-party.ts:42-51 | after `set`, the new player and every other connected player are in the roster connected |
| RoomProperties.ConnectedAfterClearReady | apps/server/src/room-party.ts:121-123 | clearing ready flags keeps connected players connected |
| RoomProperties.DistinctAfterClearReady | apps/server/src/room-party.ts:121-123 | clearing ready flags keeps ids unique |
| RoomProperties.DistinctAfterUpdate | apps/server/src/room-party.ts:131 | updating an entry's flags keeps ids unique |
| RoomProperties.BroadcastRoomStateValid | apps/server/src/room-party.ts:327-338 | room_state keeps the invariant and appends one message to everybody |
| RoomProperties.SendErrorValid | apps/server/src/room-party.ts:344-352 | an error keeps the invariant and goes to the sender alone |
| RoomProperties.BroadcastGameStateValid | apps/server/src/room-party.ts:246-262 | game_state keeps the invariant and changes only the seq, the outbox and the previous state |
| RoomProperties.EndGameValid | apps/server/src/room-party.ts:271-309 | ending a game from the playing phase keeps the invariant and appends to the outbox |
| RoomProperties.CheckGameOverValid | apps/server/src/room-party.ts:264-269 | checking game over keeps the invariant |
| RoomProperties.OnConnectValid | apps/server/src/room-party.ts:37-54 | a connection keeps the invariant and appends to the outbox |
| RoomProperties.TransferHostValid | apps/server/src/room-party.ts:313-316 | handing on the host role restores the host part of the invariant |
| RoomProperties.DepartValid | apps/server/src/room-party.ts:88-98 | removing or disconnecting the closing player keeps ids distinct, the outbox, the game and the timers, and the roster invariant when the player was not host |
| RoomProperties.ShowResultsValid | apps/server/src/room-party.ts:289-295 | dropping the game and broadcasting the results-phase room state keeps the invariant and only appends to the outbox |
| RoomProperties.CloseFinishValid | apps/server/src/room-party.ts:104-108 | the cleanup or broadcast at the end of `onClose` keeps the invariant |
| RoomProperties.OnCloseValid | apps/server/src/room-party.ts:84-109 | a closed connection keeps the invariant and appends to the outbox |
| RoomProperties.HandleSelectGameValid | apps/server/src/room-party.ts:113-125 | selecting keeps the invariant |
| RoomProperties.HandleReadyValid | apps/server/src/room-party.ts:127-134 | a ready toggle keeps the invariant |
| RoomProperties.StartGameValid | apps/server/src/room-party.ts:180-221 | starting from the lobby keeps the invariant: module, valid state, countdown timer |
| RoomProperties.HandleStartGameValid | apps/server/src/room-party.ts:136-153 | a start request keeps the invariant |
| RoomProperties.HandleGameInputValid | apps/server/src/room-party.ts:155-168 | an input keeps the invariant; this is the handler with the registered timing from "## Findings", not `HandleGameInputAsWritten` |
| RoomProperties.HandleLeaveValid | apps/server/src/room-party.ts:170-176 | leaving keeps the invariant |
| RoomProperties.OnMessageValid | apps/server/src/room-party.ts:56-82 | every frame from any sender keeps the invariant and only appends to the outbox; game inputs go through the handler with the registered timing from "## Findings", not `HandleGameInputAsWritten` |
| RoomProperties.CountdownElapsedValid | apps/server/src/room-party.ts:212-220 | the countdown timeout keeps the invariant |
| RoomProperties.TickElapsedValid | apps/server/src/room-party.ts:229-237 | a tick keeps the invariant |
| RoomProperties.BroadcastElapsedValid | apps/server/src/room-party.ts:239-243 | the broadcast interval keeps the invariant |
| RoomProperties.ResultsElapsedValid | apps/server/src/room-party.ts:298-308 | the results timeout keeps the invariant, the host included |
| RoomOutcomes.UnparsableRejected | apps/server/src/room-party.ts:57-63 | a frame that is not JSON sends INVALID_MESSAGE to the sender and changes nothing else |
| RoomOutcomes.UnhandledIgnored | apps/server/src/room-party.ts:65-81 | join_room and unlisted types change nothing and send nothing |
| RoomOutcomes.SelectByNonHostRefused | apps/server/src/room-party.ts:114-117 | a non-host's select is refused with NOT_HOST in every phase |
| RoomOutcomes.SelectByHostInLobby | apps/server/src/room-party.ts:120-124 | the host's select in the lobby records the game, clears all ready flags and broadcasts room_state |
| RoomOutcomes.SelectOutsideLobbyIgnored | apps/server/src/room-party.ts:118 | outside the lobby the host's select does nothing |
| RoomOutcomes.ReadyOutcome | apps/server/src/room-party.ts:127-134 | in the lobby a known sender's flag alone changes and room_state goes out; otherwise nothing changes |
| RoomOutcomes.StartRefused | apps/server/src/room-party.ts:137-150 | NOT_HOST, then NO_GAME, then NOT_READY, in that order, to the sender, nothing else changed |
| RoomOutcomes.StartUnknownGame | apps/server/src/room-party.ts:183-191 | an unregistered selection broadcasts UNKNOWN_GAME and stays put |
| RoomOutcomes.StartSucceeds | apps/server/src/room-party.ts:194-211 | the module's initial state, no previous state, the countdown phase and timer, room_state then game_starting with 3 s; every other field (roster, host, selection, session scores, loops) is unchanged |
| RoomOutcomes.StartRequiresHostAndReady | apps/server/src/room-party.ts:136-153 | from the lobby, the countdown starts exactly when the host asks, a game is selected and registered, and all are ready |
| RoomOutcomes.InputOutsideGameIgnored | apps/server/src/room-party.ts:156 | an input outside a live game does nothing |
| RoomOutcomes.RealtimeInputSendsNothing | apps/server/src/room-party.ts:158-167 | in a real-time game an input only updates the game state |
| RoomOutcomes.NoDeclaredTurnBasedTiming | apps/server/src/room-party.ts:164 | no module object declares a turn-based timing; the one without a timing is the turn-based one |
| RoomOutcomes.TypeRacerInputAsWrittenNeverEnds | apps/server/src/room-party.ts:158-167 | as written, a type-racer input is applied but nothing is sent and the game never ends |
| RoomOutcomes.TypeRacerInputBroadcastsAndEnds | apps/server/src/room-party.ts:158-167 | with the registered timing, each input is broadcast as a full game_state, and the race ends exactly when the module says it is over |
| RoomOutcomes.EndGameOutcome | apps/server/src/room-party.ts:271-309 | loops stop, totals grow by this game's scores, game_over then room_state, results phase with its timer |
| RoomOutcomes.OneResultAddsItsScore | apps/server/src/room-party.ts:278-279 | one result adds its score to its player's total and leaves the others |
| RoomOutcomes.OnCloseOutcome | apps/server/src/room-party.ts:84-102 | during a game the entry stays marked disconnected and the game state becomes the module's `onPlayerDisconnect` of the old one, else the entry is removed; a departing host hands on to the first connected |
| RoomOutcomes.OnCloseUnknownIgnored | apps/server/src/room-party.ts:85-86 | closing a connection with no roster entry changes nothing and sends nothing |
| RoomOutcomes.LastCloseCleansUp | apps/server/src/room-party.ts:104-108 | an emptied room stops its loops and drops the game without sending; otherwise room_state goes out |
| RoomOutcomes.LeaveKeepsGame | apps/server/src/room-party.ts:170-176 | leave_room removes the entry but never stops the game, the loops or the phase |
| RoomOutcomes.ResultsElapsedOutcome | apps/server/src/room-party.ts:298-308 | lobby again; remaining players connected and not ready; every connected player kept; host and totals unchanged; room_state sent |
| RoomOutcomes.EmptiedCountdownGetsStuck | apps/server/src/room-party.ts:212-220 | the last player leaving during the countdown leaves, once the timer fires, a playing room with no game |
| RoomOutcomes.StuckStaysOnConnect | apps/server/src/room-party.ts:37-54 | a playing room with no game stays so when someone connects |
| RoomOutcomes.StuckStaysOnClose | apps/server/src/room-party.ts:84-109 | … when someone disconnects |
| RoomOutcomes.StuckStaysOnMessage | apps/server/src/room-party.ts:56-82 | … under every message |
| RoomOutcomes.StuckStaysOnTimers | apps/server/src/room-party.ts:229-243 | … under the tick and broadcast intervals |
| Room.RoomParty.constructor | apps/server/src/room-party.ts:19-35 | a fresh room in the lobby with nothing sent, satisfying the invariant |
| Room.RoomParty.OnConnect | apps/server/src/room-party.ts:37-54 | the fields become `RoomModel.OnConnect` of the old ones; the invariant is kept |
| Room.RoomParty.OnMessage | apps/server/src/room-party.ts:56-82 | the fields become `RoomModel.OnMessage`; the invariant is kept; game inputs follow the registered timing from "## Findings", the code as written being `RoomModel.HandleGameInputAsWritten` |
| Room.RoomParty.OnClose | apps/server/src/room-party.ts:84-109 | the fields become `RoomModel.OnClose`; the invariant is kept |
| Room.RoomParty.HandleSelectGame | apps/server/src/room-party.ts:113-125 | the fields become `RoomModel.HandleSelectGame` |
| Room.RoomParty.HandleReady | apps/server/src/room-party.ts:127-134 | the fields become `RoomModel.HandleReady` |
| Room.RoomParty.HandleStartGame | apps/server/src/room-party.ts:136-153 | the fields become `RoomModel.HandleStartGame` over the registry's table |
| Room.RoomParty.HandleGameInput | apps/server/src/room-party.ts:155-168 | the fields become `RoomModel.HandleGameInput`, the corrected handler with the registered timing from "## Findings"; the code as written is `RoomModel.HandleGameInputAsWritten` |
| Room.RoomParty.HandleLeave | apps/server/src/room-party.ts:170-176 | the fields become `RoomModel.HandleLeave` |
| Room.RoomParty.StartGame | apps/server/src/room-party.ts:180-193 | the fields become `RoomModel.StartGame`, using `createGameModule` and the module's `init` |
| Room.RoomParty.Launch | apps/server/src/room-party.ts:194-220 | the fields become `RoomModel.Launch` |
| Room.RoomParty.BroadcastGameState | apps/server/src/room-party.ts:246-262 | the fields become `RoomModel.BroadcastGameState` |
| Room.RoomParty.CheckGameOver | apps/server/src/room-party.ts:264-269 | the fields become `RoomModel.CheckGameOver` |
| Room.RoomParty.EndGame | apps/server/src/room-party.ts:271-287 | the fields become `RoomModel.EndGame` |
| Room.RoomParty.ShowResults | apps/server/src/room-party.ts:289-295 | the fields become `RoomModel.ShowResults` |
| Room.RoomParty.AddResultScores | apps/server/src/room-party.ts:277-280 | the score loop leaves the totals at `AddScores` of the old totals and changes nothing else |
| Room.RoomParty.CountdownElapsed | apps/server/src/room-party.ts:212-220 | the fields become `RoomModel.CountdownElapsed`; the invariant is kept |
| Room.RoomParty.TickElapsed | apps/server/src/room-party.ts:229-237 | the fields become `RoomModel.TickElapsed`; the invariant is kept |
| Room.RoomParty.BroadcastElapsed | apps/server/src/room-party.ts:239-243 | the fields become `RoomModel.BroadcastElapsed`; the invariant is kept |
| Room.RoomParty.ResultsElapsed | apps/server/src/room-party.ts:298-308 | the fields become `RoomModel.ResultsElapsed`; the invariant is kept |
| Room.RoomParty.ClearReadyFlags | apps/server/src/room-party.ts:121-123 | the ready loop leaves the roster at `ClearReady` of the old one and changes nothing else |
| Room.RoomParty.RemoveDisconnectedPlayers | apps/server/src/room-party.ts:304-306 | the removal loop leaves the roster at `RemoveDisconnected` of the old one |
| Room.RoomParty.TransferHost | apps/server/src/room-party.ts:313-316 | the search loop sets the host as `RoomModel.TransferHost` does |
| Room.RoomParty.Send | apps/server/src/room-party.ts:340-342 | one frame appended, seq advanced |
| Room.RoomParty.BroadcastRoomState | apps/server/src/room-party.ts:327-338 | the fields become `RoomModel.BroadcastRoomState` |
| Room.RoomParty.SendError | apps/server/src/room-party.ts:344-352 | the fields become `RoomModel.SendError` |
| Room.RoomParty.StopTickLoop | apps/server/src/room-party.ts:354-363 | both intervals cleared |
| Room.RoomParty.Cleanup | apps/server/src/room-party.ts:365-370 | intervals cleared, module and state dropped |
| Room.RoomParty.Join | apps/server/src/room-party.ts:37-51 | the connecting player is stored under their id (named from the query or `Player` plus the id's first four characters), not ready and connected, and becomes host when there is none |
| Room.RoomParty.Depart | apps/server/src/room-party.ts:88-98 | the fields become `RoomModel.Depart`: during a game the player is kept as disconnected and the module is told, otherwise the player is deleted |
| Room.RoomParty.CloseFinish | apps/server/src/room-party.ts:104-108 | the fields become `RoomModel.CloseFinish`: an empty room is cleaned up, any other gets a room state |
| Room.RoomParty.Arm | apps/server/src/room-party.ts:194-201 | module and initial state installed, no previous state, phase countdown, nothing else changed |
| Room.RoomParty.Announce | apps/server/src/room-party.ts:204-210 | one `game_starting` frame to everyone with a three-second countdown, and the countdown timer armed |
| Room.RoomParty.StartLoops | apps/server/src/room-party.ts:223-244 | the tick clock is reset to now and both intervals are armed, nothing else changed |
| Room.RoomParty.DropGame | apps/server/src/room-party.ts:289-294 | module, state and previous state dropped and phase results, nothing else changed |

## Findings

| source | as written | input that shows it | evidently intended | confidence | as-written member | corrected member |
|---|---|---|---|---|---|---|
| apps/server/src/game/modules/type-racer.ts:71-74, apps/server/src/room-party.ts:164 | `TypeRacerModule` declares no `timing`, so `this.gameModule.timing.mode` throws after the input is applied | any `c2s:game_input` in a type-racer room in the playing phase: the state changes but no game_state is sent, and a completed race is never ended | the turn-based timing the module is registered with (game-registry.ts:21), so each input is broadcast and game over is checked | medium; not executed | RoomModel.HandleGameInputAsWritten, RoomOutcomes.TypeRacerInputAsWrittenNeverEnds | RoomModel.HandleGameInput, RoomOutcomes.TypeRacerInputBroadcastsAndEnds |

The countdown callback at room-party.ts:217 reads the same missing property. There it throws only after the room_state and game_state broadcasts. For a turn-based game no tick loop is due anyway, so as written and as intended lead to the same room state.

## Left out

- Transport: PartyKit connections, `room.broadcast` and `conn.send` are an outbox of decoded messages with a target.
- JSON parsing and encoding: a frame is either unparsable or an already-decoded message. A frame that parses to `null` or to a non-object makes `msg.type` throw; it is not modelled. Field types of incoming messages are taken as declared; the source does not check them.
- Timers are flags carrying the module their closure captured. Their periods (1000/20 ms, 1000/10 ms, 3 s, 5 s) and the real-time scheduling are not modelled. `dt` is passed to `tick` but unused by the module, so `lastTickTime` is recorded and never read.
- Clock and randomness: `Date.now()` is a parameter. `Math.random()` draws are parameters: a passage index, and a signal delay taken as an integer in [2000, 5000) ms where the source uses a float.
- Numbers: JavaScript numbers are integers here. Type-racer progress is reported as typed/text character counts and elapsed time in ms, not as the float ratio and seconds. The reaction average and WPM use exact rounding of integer quotients.
- Unusual inputs: inherited `Object.prototype` keys (a `passageLength` of `"constructor"`, a player id such as `"__proto__"` in `sessionScores`) and non-finite or negative times are not modelled.
- Aliasing and in-place mutation inside the game modules: their states are values and each operation returns the next one. The room stores the result exactly as it assigns it, and `serialize` ignores the previous state, so nothing observable is lost.
- `sessionScores` is a map; the key order of the JSON object is not kept.
- `dispose` and `onPlayerReconnect` are optional and neither module defines them.
- The client application (screens, hooks, the client-side registry and renderers) is not part of this model.
- TypeRacer.Score: an unfinished player's score is the exact `round(typed · 50 / text)`. The source rounds the floating-point product `(typed / text) * 50`, which can fall just below a half. On the 100-character medium passage, 29 characters typed give 14.499999999999998, so the source scores 14 where the model scores 15 (57 characters: 28 against 29). The difference reaches `sessionScores`. IEEE double arithmetic is not modelled.
- TypeRacer.GetResults: inherits the exact rounding of `TypeRacer.Score` for unfinished players.
- GameRegistry.Registry.CreateGameModule: returns the module kind rather than a fresh module object; modules carry no per-instance state, so fresh instances differ in nothing.
