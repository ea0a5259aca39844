/**
 * The server game-module interface (`ServerGameModule`) over the two modules
 * of this repository. The room holds a module and an opaque state; here the
 * module is a tag and the state a tagged union, and each interface operation
 * dispatches on the state's tag to the module that produced it.
 */
module GameEngine {
  import opened Wrappers
  import opened Protocol
  import TypeRacer
  import ReactionSpeed

  datatype ModuleKind = TypeRacerModule | ReactionSpeedModule

  datatype GameState =
    | TypeRacerState(racer: TypeRacer.State)
    | ReactionState(reaction: ReactionSpeed.State)

  datatype GameConfig =
    | TypeRacerConfig(racerConfig: TypeRacer.Config)
    | ReactionConfig(reactionConfig: ReactionSpeed.Config)

  datatype GameView =
    | TypeRacerView(racerView: TypeRacer.View)
    | ReactionView(reactionView: ReactionSpeed.View)

  /**
   * The type-racer class declares no `timing` of its own; the timing the room
   * reads for it is the one it is registered with.
   */
  const TypeRacerTiming: GameTiming := GameTiming(TurnBased, None, None, TypeRacer.DefaultDurationSecs)

  function GameIdOf(kind: ModuleKind): string
  {
    match kind
    case TypeRacerModule => TypeRacer.GameId
    case ReactionSpeedModule => ReactionSpeed.GameId
  }

  /** `module.timing`: type-racer is turn-based, reaction-speed real-time at 20 ticks and 10 broadcasts a second. */
  function TimingOf(kind: ModuleKind): (r: GameTiming)
    ensures r.mode == Realtime <==> kind == ReactionSpeedModule
    ensures kind == ReactionSpeedModule ==> r.tickRate == Some(20) && r.broadcastRate == Some(10)
  {
    match kind
    case TypeRacerModule => TypeRacerTiming
    case ReactionSpeedModule => ReactionSpeed.Timing
  }

  /**
   * The `timing` property the module object itself carries: reaction-speed
   * declares one, the type-racer class does not (reading it gives undefined).
   */
  function DeclaredTiming(kind: ModuleKind): (r: Option<GameTiming>)
    ensures r.None? <==> kind == TypeRacerModule
    ensures r.Some? ==> r.value == TimingOf(kind)
  {
    match kind
    case TypeRacerModule => None
    case ReactionSpeedModule => Some(ReactionSpeed.Timing)
  }

  /** Whether the module has a `tick` operation: only the real-time one does. */
  predicate HasTick(kind: ModuleKind)
  {
    kind == ReactionSpeedModule
  }

  function KindOf(s: GameState): ModuleKind
  {
    match s
    case TypeRacerState(_) => TypeRacerModule
    case ReactionState(_) => ReactionSpeedModule
  }

  /** The invariant of the module that owns the state. */
  predicate Valid(s: GameState)
  {
    match s
    case TypeRacerState(t) => TypeRacer.Valid(t)
    case ReactionState(t) => ReactionSpeed.Valid(t)
  }

  /** The random draws a game start uses: a medium passage index and a signal delay. */
  predicate IsDraw(pick: nat, delay: int)
  {
    pick < |TypeRacer.MediumPassages| && ReactionSpeed.IsDelay(delay)
  }

  /** `module.init(players)` as the room calls it (no settings), with the draws as parameters. */
  function InitOf(kind: ModuleKind, infos: seq<PlayerInfo>, now: int, pick: nat, delay: int): (r: (GameState, GameConfig))
    requires IsDraw(pick, delay)
    ensures KindOf(r.0) == kind
    ensures kind == TypeRacerModule ==>
              r.1 == TypeRacerConfig(TypeRacer.Config(r.0.racer.text, r.0.racer.durationSecs))
              && r.0.racer.durationSecs == TypeRacer.DefaultDurationSecs
              && r.0.racer.text in TypeRacer.MediumPassages
    ensures kind == ReactionSpeedModule ==> r.1 == ReactionConfig(ReactionSpeed.Config(ReactionSpeed.TotalRounds))
  {
    match kind
    case TypeRacerModule =>
      // With no settings, `Passages(map[])` is the medium table and the duration the default.
      var text := TypeRacer.MediumPassages[pick];
      var durationSecs := TypeRacer.DefaultDurationSecs;
      (TypeRacerState(TypeRacer.State(text, TypeRacer.InitPlayers(infos), now, durationSecs)),
       TypeRacerConfig(TypeRacer.Config(text, durationSecs)))
    case ReactionSpeedModule =>
      (ReactionState(ReactionSpeed.State(ReactionSpeed.InitPlayers(infos), 1, now, now + delay, false, false, false)),
       ReactionConfig(ReactionSpeed.Config(ReactionSpeed.TotalRounds)))
  }

  /** Every game starts in a valid state. */
  method Init(kind: ModuleKind, infos: seq<PlayerInfo>, now: int, pick: nat, delay: int)
    returns (state: GameState, config: GameConfig)
    requires IsDraw(pick, delay)
    ensures (state, config) == InitOf(kind, infos, now, pick, delay)
    ensures Valid(state)
  {
    match kind
    case TypeRacerModule =>
      var s, c := TypeRacer.Init(infos, map[], pick, now);
      state, config := TypeRacerState(s), TypeRacerConfig(c);
    case ReactionSpeedModule =>
      var s, c := ReactionSpeed.Init(infos, now, delay);
      state, config := ReactionState(s), ReactionConfig(c);
  }

  /** The initial state InitOf describes is the one Init builds, hence valid. */
  lemma InitValid(kind: ModuleKind, infos: seq<PlayerInfo>, now: int, pick: nat, delay: int)
    requires IsDraw(pick, delay)
    ensures Valid(InitOf(kind, infos, now, pick, delay).0)
  {
    match kind
    case TypeRacerModule =>
      TypeRacer.InitPlayersSpec(infos);
      TypeRacer.FreshStateValid(InitOf(kind, infos, now, pick, delay).0.racer);
    case ReactionSpeedModule =>
      ReactionSpeed.InitPlayersSpec(infos);
  }

  /** `module.onInput(state, playerId, payload)`. */
  function OnInput(s: GameState, playerId: string, input: Json, now: int): (r: GameState)
    ensures KindOf(r) == KindOf(s)
    ensures Valid(s) ==> Valid(r)
  {
    match s
    case TypeRacerState(t) => TypeRacerState(TypeRacer.OnInput(t, playerId, input, now))
    case ReactionState(t) => ReactionState(ReactionSpeed.OnInput(t, playerId, input, now))
  }

  /** `module.tick(state, dt)` for a module that has one; a state of the other module is returned as is. */
  function TickOf(s: GameState, now: int, delay: int): (r: GameState)
    ensures KindOf(r) == KindOf(s)
    ensures !HasTick(KindOf(s)) ==> r == s
  {
    match s
    case TypeRacerState(_) => s
    case ReactionState(t) => ReactionState(ReactionSpeed.TickSpec(t, now, delay))
  }

  /** A tick keeps the module invariant. */
  lemma TickOfValid(s: GameState, now: int, delay: int)
    requires Valid(s) && ReactionSpeed.IsDelay(delay)
    ensures Valid(TickOf(s, now, delay))
  {
    if s.ReactionState? {
      ReactionSpeed.TickPreservesValid(s.reaction, now, delay);
    }
  }

  method Tick(s: GameState, now: int, delay: int) returns (r: GameState)
    requires ReactionSpeed.IsDelay(delay)
    ensures r == TickOf(s, now, delay)
  {
    match s
    case TypeRacerState(_) =>
      r := s;
    case ReactionState(t) =>
      var t' := ReactionSpeed.Tick(t, now, delay);
      r := ReactionState(t');
  }

  /** `module.serialize(state, prev)`: both modules send full snapshots, never deltas. */
  function Serialize(s: GameState, now: int): (r: (GameView, bool))
    ensures !r.1
    ensures r.0.TypeRacerView? <==> s.TypeRacerState?
    ensures s.TypeRacerState? ==> r.0.racerView == TypeRacer.Serialize(s.racer, now).0
    ensures s.ReactionState? ==> r.0.reactionView == ReactionSpeed.Serialize(s.reaction).0
  {
    match s
    case TypeRacerState(t) => (TypeRacerView(TypeRacer.Serialize(t, now).0), false)
    case ReactionState(t) => (ReactionView(ReactionSpeed.Serialize(t).0), false)
  }

  predicate IsGameOver(s: GameState, now: int)
  {
    match s
    case TypeRacerState(t) => TypeRacer.IsGameOver(t, now)
    case ReactionState(t) => ReactionSpeed.IsGameOver(t)
  }

  function PlayerCount(s: GameState): nat
  {
    match s
    case TypeRacerState(t) => |t.players|
    case ReactionState(t) => |t.players|
  }

  /** `module.getResults(state)`: one result per player, ranked 1, 2, …, scores within [0, 100]. */
  function GetResults(s: GameState): (r: seq<GameResult>)
    requires Valid(s)
    ensures |r| == PlayerCount(s)
    ensures forall i :: 0 <= i < |r| ==> r[i].rank == i + 1 && 0 <= r[i].score <= 100
  {
    match s
    case TypeRacerState(t) => TypeRacer.GetResults(t)
    case ReactionState(t) => ReactionSpeed.GetResults(t)
  }

  /** `module.onPlayerDisconnect(state, playerId)` (both modules define it). */
  function OnPlayerDisconnect(s: GameState, playerId: string): (r: GameState)
    ensures KindOf(r) == KindOf(s)
    ensures Valid(s) ==> Valid(r)
  {
    match s
    case TypeRacerState(t) => TypeRacerState(TypeRacer.OnPlayerDisconnect(t, playerId))
    case ReactionState(t) => ReactionState(ReactionSpeed.OnPlayerDisconnect(t, playerId))
  }
}
