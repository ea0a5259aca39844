/**
 * The real-time "tap when the signal shows" game (server side): five rounds;
 * in each the signal appears after a random delay, a tap before it is a false
 * start (recorded as -1, counted as 500 ms), a tap after it records the time
 * since the signal, players who have not tapped 3 s after the signal get
 * 3000 ms, and after a pause the next round begins.
 *
 * The clock (`Date.now()`) is the parameter `now`; the random delay of a
 * round (`randomDelay()`) is the parameter `delay`, a whole number of
 * milliseconds in [2000, 5000).
 */
module ReactionSpeed {
  import opened Wrappers
  import opened Protocol
  import opened Numeric
  import opened Sorting
  import Roster

  const GameId: string := "reaction-speed"
  const DisplayName: string := "Reaction Speed"
  const MinPlayers: int := 1
  const MaxPlayers: int := 10
  const Timing: GameTiming := GameTiming(Realtime, Some(20), Some(10), 120)

  const TotalRounds: int := 5
  const MinDelayMs: int := 2000
  const MaxDelayMs: int := 5000
  const FalseStartPenaltyMs: int := 500
  /** The reaction time recorded for a tap before the signal. */
  const FalseStart: int := -1
  /** Players who have not tapped this long after the signal are given this time. */
  const TimeoutMs: int := 3000
  /** The pause after the last tap before the next round. */
  const PauseMs: int := 1500
  /** A round ends at the latest this long after its signal. */
  const RoundCapMs: int := 5000
  /** The average reported for a player without any reaction time. */
  const NoTimesAverage: int := 9999

  datatype PlayerState = PlayerState(id: string, name: string, reactionTimes: seq<int>, tappedThisRound: bool)

  datatype State = State(
    players: seq<PlayerState>,
    round: int,
    roundStartedAt: int,
    signalAt: int,
    signalShown: bool,
    roundOver: bool,
    finished: bool)

  datatype Config = Config(totalRounds: int)

  datatype PlayerView = PlayerView(id: string, name: string, reactionTimes: seq<int>, tappedThisRound: bool, avgMs: int)

  datatype View = View(round: int, totalRounds: int, signalShown: bool, roundOver: bool, finished: bool, players: seq<PlayerView>)

  function PlayerId(p: PlayerState): string { p.id }
  function InfoId(p: PlayerInfo): string { p.id }

  predicate IsDelay(delay: int)
  {
    MinDelayMs <= delay < MaxDelayMs
  }

  predicate AllTapped(players: seq<PlayerState>)
  {
    forall i :: 0 <= i < |players| ==> players[i].tappedThisRound
  }

  /**
   * The state the module keeps: one record per id, rounds 1 to 5, the signal
   * 2 to 5 s after the round began, one reaction time per completed round plus
   * one for the current round once tapped, a round only ends once everybody
   * has tapped, and the game only finishes at the end of round 5.
   */
  predicate Valid(s: State)
  {
    && Roster.Distinct(s.players, PlayerId)
    && 1 <= s.round <= TotalRounds
    && s.roundStartedAt + MinDelayMs <= s.signalAt < s.roundStartedAt + MaxDelayMs
    && (forall i :: 0 <= i < |s.players| ==>
          |s.players[i].reactionTimes| == s.round - 1 + (if s.players[i].tappedThisRound then 1 else 0))
    && (s.roundOver ==> AllTapped(s.players))
    && (s.finished ==> s.roundOver && s.round == TotalRounds)
  }

  // ---- init ----

  function NewPlayer(info: PlayerInfo): PlayerState
  {
    PlayerState(info.id, info.name, [], false)
  }

  function FreshRecords(infos: seq<PlayerInfo>): (r: seq<PlayerState>)
    ensures |r| == |infos|
    ensures forall i :: 0 <= i < |infos| ==>
              r[i].id == infos[i].id && r[i].name == infos[i].name && r[i].reactionTimes == [] && !r[i].tappedThisRound
  {
    seq(|infos|, i requires 0 <= i < |infos| => NewPlayer(infos[i]))
  }

  /** The player map built by `init`: one record per roster id, with no times and not tapped. */
  function InitPlayers(infos: seq<PlayerInfo>): seq<PlayerState>
  {
    Roster.FromList(FreshRecords(infos), PlayerId)
  }

  lemma InitPlayersSpec(infos: seq<PlayerInfo>)
    ensures Roster.Distinct(InitPlayers(infos), PlayerId)
    ensures forall j :: 0 <= j < |InitPlayers(infos)| ==>
              InitPlayers(infos)[j].reactionTimes == [] && !InitPlayers(infos)[j].tappedThisRound
    ensures forall i :: 0 <= i < |infos| ==> Roster.IndexOf(InitPlayers(infos), PlayerId, infos[i].id).Some?
  {
    var records := FreshRecords(infos);
    Roster.FromListElements(records, PlayerId);
    forall j | 0 <= j < |InitPlayers(infos)|
      ensures InitPlayers(infos)[j].reactionTimes == [] && !InitPlayers(infos)[j].tappedThisRound
    {
      assert InitPlayers(infos)[j] in records;
    }
    forall i | 0 <= i < |infos|
      ensures Roster.IndexOf(InitPlayers(infos), PlayerId, infos[i].id).Some?
    {
      Roster.FromListCover(records, PlayerId, i);
    }
  }

  /** The loop of `init`: `playerMap.set(p.id, fresh record)` for each roster entry in order. */
  method BuildPlayers(infos: seq<PlayerInfo>) returns (players: seq<PlayerState>)
    ensures players == InitPlayers(infos)
  {
    ghost var records := FreshRecords(infos);
    players := [];
    var i := 0;
    while i < |infos|
      invariant 0 <= i <= |infos|
      invariant players == Roster.FromList(records[..i], PlayerId)
    {
      assert records[..i + 1] == records[..i] + [NewPlayer(infos[i])];
      Roster.FromListSnoc(records[..i], PlayerId, NewPlayer(infos[i]));
      players := Roster.Set(players, PlayerId, NewPlayer(infos[i]));
      i := i + 1;
    }
    assert records[..i] == records;
  }

  /** `init(players)`: round 1 starts now, its signal after the drawn delay. */
  method Init(infos: seq<PlayerInfo>, now: int, delay: int) returns (s: State, config: Config)
    requires IsDelay(delay)
    ensures s == State(InitPlayers(infos), 1, now, now + delay, false, false, false)
    ensures config == Config(TotalRounds)
    ensures Valid(s)
  {
    InitPlayersSpec(infos);
    var players := BuildPlayers(infos);
    s := State(players, 1, now, now + delay, false, false, false);
    config := Config(TotalRounds);
  }

  // ---- onInput ----

  /** `isReactionInput`: an object whose `action` is the string "tap". */
  predicate IsReactionInput(input: Json)
  {
    input.JObject? && "action" in input.fields && input.fields["action"] == JStr("tap")
  }

  /** The time recorded for a tap at time now. */
  function TapTime(s: State, now: int): int
  {
    if !s.signalShown then FalseStart else now - s.signalAt
  }

  /** `onInput(state, playerId, input)` at time now: a player's first tap of a running round is recorded. */
  function OnInput(s: State, playerId: string, input: Json, now: int): (r: State)
    ensures r.round == s.round && r.roundStartedAt == s.roundStartedAt && r.signalAt == s.signalAt
    ensures r.signalShown == s.signalShown && r.finished == s.finished
    ensures |r.players| == |s.players|
    ensures forall j :: 0 <= j < |s.players| ==>
              r.players[j].id == s.players[j].id && r.players[j].name == s.players[j].name
    ensures forall j :: 0 <= j < |s.players| && s.players[j].tappedThisRound ==> r.players[j] == s.players[j]
    ensures s.roundOver ==> r == s
    ensures Valid(s) ==> Valid(r)
  {
    if !IsReactionInput(input) then s
    else if s.finished || s.roundOver then s
    else
      match Roster.IndexOf(s.players, PlayerId, playerId)
      case None => s
      case Some(i) =>
        var p := s.players[i];
        if p.tappedThisRound then s
        else
          var players := s.players[i := p.(tappedThisRound := true, reactionTimes := p.reactionTimes + [TapTime(s, now)])];
          s.(players := players, roundOver := AllTapped(players))
  }

  /** A tap that is not a tap, comes after the round or game ended, is from an unknown player or repeats is ignored. */
  lemma OnInputIgnored(s: State, playerId: string, input: Json, now: int)
    requires || !IsReactionInput(input) || s.finished || s.roundOver
             || Roster.IndexOf(s.players, PlayerId, playerId).None?
             || s.players[Roster.IndexOf(s.players, PlayerId, playerId).value].tappedThisRound
    ensures OnInput(s, playerId, input, now) == s
  {
  }

  /**
   * A first tap appends -1 before the signal and the time since the signal
   * after it, and the round is over exactly when everybody has now tapped.
   */
  lemma OnInputRecordsTap(s: State, playerId: string, i: nat, input: Json, now: int)
    requires IsReactionInput(input) && !s.finished && !s.roundOver
    requires Roster.IndexOf(s.players, PlayerId, playerId) == Some(i)
    requires !s.players[i].tappedThisRound
    ensures var r := OnInput(s, playerId, input, now);
      && r.players == s.players[i := r.players[i]]
      && r.players[i].tappedThisRound
      && r.players[i].reactionTimes == s.players[i].reactionTimes + [if s.signalShown then now - s.signalAt else -1]
      && (r.roundOver <==> forall j :: 0 <= j < |s.players| && j != i ==> s.players[j].tappedThisRound)
  {
    var r := OnInput(s, playerId, input, now);
    if r.roundOver {
      forall j | 0 <= j < |s.players| && j != i ensures s.players[j].tappedThisRound {
        assert r.players[j] == s.players[j];
      }
    }
  }

  // ---- tick ----

  /** Stage 1 of `tick`: the signal shows once its time has come. */
  function ShowSignal(s: State, now: int): (r: State)
    ensures r.signalShown <==> s.signalShown || now >= s.signalAt
    ensures r == s.(signalShown := r.signalShown)
  {
    if !s.signalShown && now >= s.signalAt then s.(signalShown := true) else s
  }

  /** A player who has not tapped is given the timeout time. */
  function Credit(p: PlayerState): (r: PlayerState)
    ensures r.id == p.id && r.name == p.name && r.tappedThisRound
    ensures r.reactionTimes == p.reactionTimes + (if p.tappedThisRound then [] else [TimeoutMs])
  {
    if !p.tappedThisRound then p.(tappedThisRound := true, reactionTimes := p.reactionTimes + [TimeoutMs]) else p
  }

  /** Stage 2 of `tick`: more than 3 s after the signal the round ends and every player who has not tapped gets 3000 ms. */
  function TimeOut(s: State, now: int): (r: State)
    ensures |r.players| == |s.players|
    ensures s.signalShown && !s.roundOver && now - s.signalAt > TimeoutMs ==>
              r.roundOver && forall i :: 0 <= i < |s.players| ==> r.players[i] == Credit(s.players[i])
    ensures !(s.signalShown && !s.roundOver && now - s.signalAt > TimeoutMs) ==> r == s
    ensures r.round == s.round && r.signalAt == s.signalAt && r.roundStartedAt == s.roundStartedAt
    ensures r.signalShown == s.signalShown && r.finished == s.finished
  {
    if s.signalShown && !s.roundOver && now - s.signalAt > TimeoutMs then
      s.(players := seq(|s.players|, i requires 0 <= i < |s.players| => Credit(s.players[i])), roundOver := true)
    else s
  }

  /** A JavaScript number as `Math.max` can produce it from the values below. */
  datatype JsNumber = NegInfinity | NaN | Finite(v: int)

  /** The last reaction time of a player, a false start counting 0; `undefined` (no time yet) is NaN to `Math.max`. */
  function LastTap(p: PlayerState): JsNumber
  {
    if |p.reactionTimes| == 0 then NaN
    else
      var last := p.reactionTimes[|p.reactionTimes| - 1];
      Finite(if last == FalseStart then 0 else last)
  }

  function JsMax(a: JsNumber, b: JsNumber): JsNumber
  {
    if a.NaN? || b.NaN? then NaN
    else if a.NegInfinity? then b
    else if b.NegInfinity? then a
    else Finite(Max(a.v, b.v))
  }

  /** `Math.max(...lastTaps)`: -Infinity for no players, NaN if any is NaN, else the largest. */
  function LastTapTime(players: seq<PlayerState>): (r: JsNumber)
    ensures r.NegInfinity? <==> |players| == 0
    ensures (forall i :: 0 <= i < |players| ==> !LastTap(players[i]).NaN?) <==> !r.NaN?
    ensures r.Finite? ==> forall i :: 0 <= i < |players| ==> LastTap(players[i]).Finite? && LastTap(players[i]).v <= r.v
  {
    if |players| == 0 then NegInfinity
    else
      assert forall i :: 1 <= i < |players| ==> players[i] == players[1..][i - 1];
      JsMax(LastTap(players[0]), LastTapTime(players[1..]))
  }

  /** `now - (signalAt + lastTapTime) > 1500` evaluated with JavaScript's infinities and NaN. */
  predicate PauseOver(s: State, now: int)
  {
    match LastTapTime(s.players)
    case NegInfinity => true
    case NaN => false
    case Finite(v) => now - (s.signalAt + v) > PauseMs
  }

  /** Every tapped flag cleared; the closed form that the loop `ClearTapped` is proved to compute. */
  function ResetTapped(players: seq<PlayerState>): (r: seq<PlayerState>)
    ensures |r| == |players|
    ensures forall i :: 0 <= i < |players| ==> r[i] == players[i].(tappedThisRound := false)
  {
    seq(|players|, i requires 0 <= i < |players| => players[i].(tappedThisRound := false))
  }

  /** Stage 3 of `tick`: after the pause (or 5 s after the signal) an ended round finishes the game or starts the next. */
  function Advance(s: State, now: int, delay: int): State
  {
    if s.roundOver && (PauseOver(s, now) || now - s.signalAt > RoundCapMs) then
      if s.round >= TotalRounds then s.(finished := true)
      else s.(round := s.round + 1, roundStartedAt := now, signalAt := now + delay,
              signalShown := false, roundOver := false, players := ResetTapped(s.players))
    else s
  }

  /** `tick(state, dt)` at time now, with the delay drawn should a new round start. */
  function TickSpec(s: State, now: int, delay: int): State
  {
    if s.finished then s else Advance(TimeOut(ShowSignal(s, now), now), now, delay)
  }

  /** `tick`, with its two loops over the player map. */
  method Tick(s: State, now: int, delay: int) returns (r: State)
    requires IsDelay(delay)
    ensures r == TickSpec(s, now, delay)
  {
    if s.finished {
      return s;
    }
    r := s;
    if !r.signalShown && now >= r.signalAt {
      r := r.(signalShown := true);
    }
    if r.signalShown && !r.roundOver {
      var elapsed := now - r.signalAt;
      if elapsed > TimeoutMs {
        var players := CreditMissing(r.players);
        r := r.(players := players, roundOver := true);
      }
    }
    assert r == TimeOut(ShowSignal(s, now), now);
    if r.roundOver {
      var lastTapTime := LastTapTime(r.players);
      // `now - (signalAt + lastTapTime) > 1500` with JavaScript's infinities and NaN
      var pauseOver := match lastTapTime
        case NegInfinity => true
        case NaN => false
        case Finite(v) => now - (r.signalAt + v) > PauseMs;
      if pauseOver || now - r.signalAt > RoundCapMs {
        if r.round >= TotalRounds {
          r := r.(finished := true);
        } else {
          var players := ClearTapped(r.players);
          r := r.(round := r.round + 1, roundStartedAt := now, signalAt := now + delay,
                  signalShown := false, roundOver := false, players := players);
        }
      }
    }
  }

  /** The timeout loop of `tick`: every player who has not tapped is credited 3000 ms. */
  method CreditMissing(players: seq<PlayerState>) returns (credited: seq<PlayerState>)
    ensures |credited| == |players|
    ensures forall j :: 0 <= j < |players| ==> credited[j] == Credit(players[j])
  {
    credited := players;
    var i := 0;
    while i < |credited|
      invariant 0 <= i <= |credited| == |players|
      invariant forall j :: 0 <= j < i ==> credited[j] == Credit(players[j])
      invariant forall j :: i <= j < |credited| ==> credited[j] == players[j]
    {
      if !credited[i].tappedThisRound {
        credited := credited[i := credited[i].(tappedThisRound := true,
                                              reactionTimes := credited[i].reactionTimes + [TimeoutMs])];
      }
      i := i + 1;
    }
  }

  /** The loop of `tick` that starts a new round: every tapped flag is cleared. */
  method ClearTapped(players: seq<PlayerState>) returns (cleared: seq<PlayerState>)
    ensures cleared == ResetTapped(players)
  {
    cleared := players;
    var i := 0;
    while i < |cleared|
      invariant 0 <= i <= |cleared| == |players|
      invariant forall j :: 0 <= j < i ==> cleared[j] == players[j].(tappedThisRound := false)
      invariant forall j :: i <= j < |cleared| ==> cleared[j] == players[j]
    {
      cleared := cleared[i := cleared[i].(tappedThisRound := false)];
      i := i + 1;
    }
  }

  /** Under the invariant an ended round has a last time for every player, so `Math.max` never sees `undefined`. */
  lemma EndedRoundHasLastTaps(s: State)
    requires Valid(s) && s.roundOver
    ensures !LastTapTime(s.players).NaN?
  {
    forall i | 0 <= i < |s.players| ensures !LastTap(s.players[i]).NaN? {
      assert s.players[i].tappedThisRound;
    }
  }

  /** `tick` keeps the invariant, whatever the time and the drawn delay. */
  lemma TickPreservesValid(s: State, now: int, delay: int)
    requires Valid(s) && IsDelay(delay)
    ensures Valid(TickSpec(s, now, delay))
  {
    if !s.finished {
      var a := ShowSignal(s, now);
      var b := TimeOut(a, now);
      assert Valid(a);
      assert Valid(b) by {
        if a.signalShown && !a.roundOver && now - a.signalAt > TimeoutMs {
          forall i | 0 <= i < |b.players| ensures b.players[i].id == a.players[i].id {
            assert b.players[i] == Credit(a.players[i]);
          }
        }
      }
      var c := Advance(b, now, delay);
      if b.roundOver && (PauseOver(b, now) || now - b.signalAt > RoundCapMs) && b.round < TotalRounds {
        assert b.players[0..] == b.players;
        forall i | 0 <= i < |c.players|
          ensures |c.players[i].reactionTimes| == c.round - 1
        {
          assert b.players[i].tappedThisRound;
        }
      }
    }
  }

  /** Rounds only move forward, one at a time, and a finished game stays finished. */
  lemma TickProgress(s: State, now: int, delay: int)
    ensures var r := TickSpec(s, now, delay);
      && (r.round == s.round || r.round == s.round + 1)
      && (s.finished ==> r == s)
      && (r.round == s.round + 1 ==> !r.finished && !r.roundOver && !r.signalShown && r.signalAt == now + delay)
      && (r.round == s.round + 1 ==>
            |r.players| == |s.players|
            && forall i :: 0 <= i < |r.players| ==>
                 !r.players[i].tappedThisRound && r.players[i].id == s.players[i].id && r.players[i].name == s.players[i].name)
  {
  }

  /**
   * The third stage of `tick` decides on the round after the signal and
   * timeout stages: once the round is over and the 1.5 s pause (or the 5 s
   * cap) has passed, round 5 finishes the game and an earlier round is
   * replaced by a clean next one; before that the tick changes nothing more.
   */
  lemma AdvanceOutcome(s: State, now: int, delay: int)
    requires !s.finished
    ensures var b := TimeOut(ShowSignal(s, now), now);
      var r := TickSpec(s, now, delay);
      var due := b.roundOver && (PauseOver(b, now) || now - b.signalAt > RoundCapMs);
      && (due && s.round >= TotalRounds ==> r == b.(finished := true))
      && (due && s.round < TotalRounds ==>
            r == b.(round := s.round + 1, roundStartedAt := now, signalAt := now + delay,
                    signalShown := false, roundOver := false, players := ResetTapped(b.players)))
      && (!due ==> r == b)
  {
  }

  /**
   * No round outlasts its cap: a tick more than 5 s after the signal of an
   * unfinished game either starts the next round or finishes the game.
   */
  lemma RoundEndsByCap(s: State, now: int, delay: int)
    requires Valid(s) && !s.finished && now - s.signalAt > RoundCapMs
    ensures var r := TickSpec(s, now, delay);
      r.round == s.round + 1 || (r.finished && s.round == TotalRounds)
  {
  }

  // ---- onPlayerDisconnect ----

  /** `onPlayerDisconnect`: a known player who has not tapped this round is given the timeout time. */
  function OnPlayerDisconnect(s: State, playerId: string): (r: State)
    ensures Roster.IndexOf(s.players, PlayerId, playerId).None? ==> r == s
    ensures Roster.IndexOf(s.players, PlayerId, playerId).Some? ==>
              var i := Roster.IndexOf(s.players, PlayerId, playerId).value;
              r == s.(players := s.players[i := Credit(s.players[i])])
    ensures Valid(s) ==> Valid(r)
  {
    match Roster.IndexOf(s.players, PlayerId, playerId)
    case None => s
    case Some(i) =>
      var p := s.players[i];
      if !p.tappedThisRound then
        s.(players := s.players[i := p.(tappedThisRound := true, reactionTimes := p.reactionTimes + [TimeoutMs])])
      else s
  }

  // ---- averages, serialize, isGameOver ----

  function Adjust(t: int): int
  {
    if t == FalseStart then FalseStartPenaltyMs else t
  }

  function SumAdjusted(times: seq<int>): int
  {
    if |times| == 0 then 0 else SumAdjusted(times[..|times| - 1]) + Adjust(times[|times| - 1])
  }

  /** `getAverageReaction(times)`: 9999 without times, else the rounded mean with false starts as 500 ms. */
  function Average(times: seq<int>): int
  {
    if |times| == 0 then NoTimesAverage else RoundDiv(SumAdjusted(times), |times|)
  }

  lemma {:induction false} SumAdjustedBounds(times: seq<int>, lo: int, hi: int)
    requires forall i :: 0 <= i < |times| ==> lo <= Adjust(times[i]) <= hi
    ensures |times| * lo <= SumAdjusted(times) <= |times| * hi
  {
    if |times| > 0 {
      var init := times[..|times| - 1];
      assert forall i :: 0 <= i < |init| ==> init[i] == times[i];
      SumAdjustedBounds(init, lo, hi);
    }
  }

  /** The mean of non-empty times lies between their smallest and largest adjusted value. */
  lemma AverageBounds(times: seq<int>, lo: int, hi: int)
    requires |times| > 0
    requires forall i :: 0 <= i < |times| ==> lo <= Adjust(times[i]) <= hi
    ensures lo <= Average(times) <= hi
  {
    var n := |times|;
    SumAdjustedBounds(times, lo, hi);
    assert n * lo == lo * n && n * hi == hi * n;
    RoundDivMonotone(lo * n, SumAdjusted(times), n);
    RoundDivMonotone(SumAdjusted(times), hi * n, n);
    RoundDivExact(lo, n);
    RoundDivExact(hi, n);
  }

  /** The documented example: a false start and 300 ms average to (500 + 300) / 2 = 400. */
  lemma AverageOfFalseStart()
    ensures Average([FalseStart, 300]) == 400
  {
    var times := [FalseStart, 300];
    assert times[..1] == [FalseStart];
    assert [FalseStart][..0] == [];
    assert SumAdjusted([FalseStart]) == 500;
    assert SumAdjusted(times) == SumAdjusted(times[..1]) + Adjust(300);
    RoundDivExact(400, 2);
  }

  function ViewOf(p: PlayerState): PlayerView
  {
    PlayerView(p.id, p.name, p.reactionTimes, p.tappedThisRound, Average(p.reactionTimes))
  }

  /** `serialize(state, prev)`: a full snapshot (`isDelta` is false) without the signal schedule. */
  function Serialize(s: State): (r: (View, bool))
    ensures !r.1
    ensures r.0.round == s.round && r.0.totalRounds == TotalRounds && r.0.signalShown == s.signalShown
    ensures r.0.roundOver == s.roundOver && r.0.finished == s.finished
    ensures |r.0.players| == |s.players| && forall i :: 0 <= i < |s.players| ==> r.0.players[i] == ViewOf(s.players[i])
  {
    (View(s.round, TotalRounds, s.signalShown, s.roundOver, s.finished,
          seq(|s.players|, i requires 0 <= i < |s.players| => ViewOf(s.players[i]))),
     false)
  }

  /** Clients cannot learn when the signal will show: the broadcast does not depend on the schedule. */
  lemma SerializeHidesSchedule(s: State, roundStartedAt: int, signalAt: int)
    ensures Serialize(s.(roundStartedAt := roundStartedAt, signalAt := signalAt)) == Serialize(s)
  {
  }

  predicate IsGameOver(s: State)
  {
    s.finished
  }

  /** A finished game has a reaction time for each of the five rounds for every player. */
  lemma FinishedHasAllRounds(s: State)
    requires Valid(s) && IsGameOver(s)
    ensures forall i :: 0 <= i < |s.players| ==> |s.players[i].reactionTimes| == TotalRounds
  {
    forall i | 0 <= i < |s.players| ensures |s.players[i].reactionTimes| == TotalRounds {
      assert s.players[i].tappedThisRound;
    }
  }

  /** Game over stays game over under input, ticks and disconnects. */
  lemma GameOverIsPermanent(s: State, playerId: string, input: Json, now: int, delay: int)
    requires IsGameOver(s)
    ensures IsGameOver(OnInput(s, playerId, input, now))
    ensures IsGameOver(TickSpec(s, now, delay))
    ensures IsGameOver(OnPlayerDisconnect(s, playerId))
  {
  }

  // ---- getResults ----

  /** `reactionTimes.filter(t => t === -1).length`. */
  function FalseStarts(times: seq<int>): (r: nat)
    ensures r <= |times|
    ensures r == 0 <==> forall i :: 0 <= i < |times| ==> times[i] != FalseStart
  {
    if |times| == 0 then 0
    else
      assert forall i :: 0 <= i < |times| - 1 ==> times[..|times| - 1][i] == times[i];
      FalseStarts(times[..|times| - 1]) + (if times[|times| - 1] == FalseStart then 1 else 0)
  }

  /** The comparator of getResults as a key: by average, lower first. */
  function AverageKey(p: PlayerState): Key
  {
    Key(Average(p.reactionTimes), 0)
  }

  /** The players in result order: by average, ties in map order (the sort is stable). */
  function Ranking(s: State): (r: seq<PlayerState>)
    ensures |r| == |s.players| && multiset(r) == multiset(s.players)
    ensures forall i, j :: 0 <= i < j < |r| ==> Average(r[i].reactionTimes) <= Average(r[j].reactionTimes)
    ensures forall k :: WithKey(r, AverageKey, k) == WithKey(s.players, AverageKey, k)
  {
    SortByCorrect(s.players, AverageKey);
    var r := SortBy(s.players, AverageKey);
    assert forall i, j :: 0 <= i < j < |r| ==> KeyLe(AverageKey(r[i]), AverageKey(r[j]));
    r
  }

  function ResultOf(p: PlayerState, i: nat): GameResult
  {
    GameResult(p.id, p.name, PositionScore(i), i + 1,
               ReactionStats(Average(p.reactionTimes), FalseStarts(p.reactionTimes)))
  }

  /** `getResults(state)`. */
  function GetResults(s: State): (r: seq<GameResult>)
    ensures |r| == |s.players|
    ensures forall i :: 0 <= i < |r| ==> r[i] == ResultOf(Ranking(s)[i], i)
    ensures forall i :: 0 <= i < |r| ==> r[i].rank == i + 1 && 10 <= r[i].score <= 100
  {
    var ranked := Ranking(s);
    seq(|ranked|, i requires 0 <= i < |ranked| => ResultOf(ranked[i], i))
  }

  /** A better rank never has a higher average or a lower score. */
  lemma ResultsOrdered(s: State, i: nat, j: nat)
    requires i < j < |s.players|
    ensures GetResults(s)[i].stats.avgMs <= GetResults(s)[j].stats.avgMs
    ensures GetResults(s)[i].score >= GetResults(s)[j].score
    ensures j < 5 ==> GetResults(s)[i].score > GetResults(s)[j].score
  {
  }

  /** First place scores 100, second 80, from sixth place on 10. */
  lemma PositionScores()
    ensures PositionScore(0) == 100 && PositionScore(1) == 80 && PositionScore(2) == 60
    ensures forall i: nat :: i >= 5 ==> PositionScore(i) == 10
  {
  }
}
