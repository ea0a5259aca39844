/**
 * The turn-based "type a passage" game (server side). Every player types the
 * same passage; the stored text of a player only ever moves to a prefix of the
 * passage, a player finishes by typing all of it, and the race also ends when
 * its time limit has passed.
 *
 * The clock (`Date.now()`) is the parameter `now`, and the random passage
 * choice is the parameter `pick`.
 */
module TypeRacer {
  import opened Wrappers
  import opened Protocol
  import opened Numeric
  import opened Sorting
  import Roster

  const GameId: string := "type-racer"
  /** Registered maximum duration of type-racer, used when no time limit is configured. */
  const DefaultDurationSecs: int := 60
  const MinDurationSecs: int := 15
  const MaxDurationSecs: int := 300

  const ShortPassages: seq<string> := [
    "The quick brown fox jumps over the lazy dog.",
    "How vexingly quick daft zebras jump.",
    "Pack my box with five dozen liquor jugs.",
    "Six big juicy steaks sizzled in the pan.",
    "The job requires extra pluck and zeal."
  ]

  const MediumPassages: seq<string> := [
    "The quick brown fox jumps over the lazy dog. Pack my box with five dozen liquor jugs.",
    "How vexingly quick daft zebras jump. The five boxing wizards jump quickly at dawn.",
    "Amazingly few discotheques provide jukeboxes. Crazy Frederick bought many very exquisite opal jewels.",
    "The wizard quickly jinxed the gnomes before they vaporized. Six big juicy steaks sizzled in the pan.",
    "Grumpy wizards make toxic brew for the evil queen and jack. The job requires extra pluck and zeal."
  ]

  const LongPassages: seq<string> := [
    "The quick brown fox jumps over the lazy dog. Pack my box with five dozen liquor jugs. How vexingly quick daft zebras jump. The five boxing wizards jump quickly at dawn.",
    "Amazingly few discotheques provide jukeboxes. Crazy Frederick bought many very exquisite opal jewels. The wizard quickly jinxed the gnomes before they vaporized. Six big juicy steaks sizzled in the pan.",
    "We promptly judged antique ivory buckles for the next prize. A quart jar of oil mixed with zinc oxide makes a bright paint. Grumpy wizards make toxic brew for the evil queen and jack. The job requires extra pluck and zeal."
  ]

  datatype PlayerState = PlayerState(
    id: string,
    name: string,
    typed: string,
    wpm: int,
    finished: bool,
    finishTime: Option<int>)

  datatype State = State(text: string, players: seq<PlayerState>, startTime: int, durationSecs: int)

  /** What clients learn when the game starts. */
  datatype Config = Config(text: string, durationSecs: int)

  /** One player as broadcast: progress is the fraction typedChars / textChars. */
  datatype PlayerView = PlayerView(id: string, name: string, typedChars: nat, textChars: nat, wpm: int, finished: bool)

  /** The broadcast state; elapsed time is kept in milliseconds. */
  datatype View = View(text: string, players: seq<PlayerView>, elapsedMs: int, durationSecs: int)

  function PlayerId(p: PlayerState): string { p.id }
  function InfoId(p: PlayerInfo): string { p.id }

  // ---- Settings ----

  /** The passage table chosen by the `passageLength` setting; anything unknown means medium. */
  function Passages(settings: map<string, Json>): (r: seq<string>)
    ensures |r| > 0 && forall i :: 0 <= i < |r| ==> |r[i]| > 0
    ensures "passageLength" in settings && settings["passageLength"] == JStr("short") ==> r == ShortPassages
    ensures "passageLength" in settings && settings["passageLength"] == JStr("long") ==> r == LongPassages
    ensures !("passageLength" in settings && settings["passageLength"] in {JStr("short"), JStr("long")}) ==>
              r == MediumPassages
  {
    var passageLength :=
      if "passageLength" in settings && settings["passageLength"].JStr?
      then settings["passageLength"].s else "medium";
    if passageLength == "short" then ShortPassages
    else if passageLength == "long" then LongPassages
    else MediumPassages
  }

  /** The race duration: a numeric `timeLimit` clamped to [15, 300], else the default. */
  function DurationSecs(settings: map<string, Json>): (r: int)
    ensures MinDurationSecs <= r <= MaxDurationSecs
    ensures "timeLimit" in settings && settings["timeLimit"].JNum? ==>
              r == Max(MinDurationSecs, Min(settings["timeLimit"].n, MaxDurationSecs))
    ensures ("timeLimit" in settings && settings["timeLimit"].JNum?
             && MinDurationSecs <= settings["timeLimit"].n <= MaxDurationSecs) ==>
              r == settings["timeLimit"].n
    ensures !("timeLimit" in settings && settings["timeLimit"].JNum?) ==> r == DefaultDurationSecs
  {
    var timeLimitSecs :=
      if "timeLimit" in settings && settings["timeLimit"].JNum?
      then settings["timeLimit"].n else DefaultDurationSecs;
    Max(MinDurationSecs, Min(timeLimitSecs, MaxDurationSecs))
  }

  // ---- Invariant ----

  /** What every state produced by this module satisfies. */
  predicate PlayerValid(p: PlayerState, text: string)
  {
    && p.typed <= text
    && p.wpm >= 0
    && (p.typed == text ==> p.finished)
    && (p.finishTime.Some? ==> p.finished && p.typed == text)
  }

  predicate Valid(s: State)
  {
    && |s.text| > 0
    && Roster.Distinct(s.players, PlayerId)
    && forall i :: 0 <= i < |s.players| ==> PlayerValid(s.players[i], s.text)
  }

  // ---- init ----

  function NewPlayer(info: PlayerInfo): PlayerState
  {
    PlayerState(info.id, info.name, "", 0, false, None)
  }

  predicate IsFresh(p: PlayerState)
  {
    p.typed == "" && p.wpm == 0 && !p.finished && p.finishTime.None?
  }

  /** The fresh record of each roster entry, in roster order. */
  function FreshRecords(infos: seq<PlayerInfo>): (r: seq<PlayerState>)
    ensures |r| == |infos|
    ensures forall i :: 0 <= i < |infos| ==> r[i].id == infos[i].id && r[i].name == infos[i].name && IsFresh(r[i])
  {
    seq(|infos|, i requires 0 <= i < |infos| => NewPlayer(infos[i]))
  }

  /** The player map built by `init`: one fresh record per roster id. */
  function InitPlayers(infos: seq<PlayerInfo>): seq<PlayerState>
  {
    Roster.FromList(FreshRecords(infos), PlayerId)
  }

  /** Every record is fresh and belongs to a roster entry, and every roster entry has one. */
  lemma InitPlayersSpec(infos: seq<PlayerInfo>)
    ensures Roster.Distinct(InitPlayers(infos), PlayerId)
    ensures forall j :: 0 <= j < |InitPlayers(infos)| ==> IsFresh(InitPlayers(infos)[j])
    ensures forall j :: 0 <= j < |InitPlayers(infos)| ==>
              exists i :: 0 <= i < |infos| && InitPlayers(infos)[j] == NewPlayer(infos[i])
    ensures forall i :: 0 <= i < |infos| ==> Roster.IndexOf(InitPlayers(infos), PlayerId, infos[i].id).Some?
  {
    var records := FreshRecords(infos);
    Roster.FromListElements(records, PlayerId);
    forall j | 0 <= j < |InitPlayers(infos)|
      ensures exists i :: 0 <= i < |infos| && InitPlayers(infos)[j] == NewPlayer(infos[i])
    {
      assert InitPlayers(infos)[j] in records;
    }
    forall i | 0 <= i < |infos|
      ensures Roster.IndexOf(InitPlayers(infos), PlayerId, infos[i].id).Some?
    {
      Roster.FromListCover(records, PlayerId, i);
    }
  }

  /** With distinct ids (the room's case) the records follow the roster one to one. */
  lemma InitPlayersInOrder(infos: seq<PlayerInfo>)
    requires Roster.Distinct(infos, InfoId)
    ensures InitPlayers(infos) == FreshRecords(infos)
  {
    var records := FreshRecords(infos);
    assert Roster.Distinct(records, PlayerId) by {
      forall i, j | 0 <= i < j < |records| ensures PlayerId(records[i]) != PlayerId(records[j]) {
        assert InfoId(infos[i]) != InfoId(infos[j]);
      }
    }
    Roster.FromListOfDistinct(records, PlayerId);
  }

  /** The loop of `init`: `playerMap.set(p.id, fresh record)` for each roster entry in order. */
  method BuildPlayers(infos: seq<PlayerInfo>) returns (players: seq<PlayerState>)
    ensures players == InitPlayers(infos)
  {
    ghost var records := FreshRecords(infos);
    players := [];
    var i := 0;
    while i < |infos|
      invariant 0 <= i <= |infos|
      invariant players == Roster.FromList(records[..i], PlayerId)
    {
      assert records[..i + 1] == records[..i] + [NewPlayer(infos[i])];
      Roster.FromListSnoc(records[..i], PlayerId, NewPlayer(infos[i]));
      players := Roster.Set(players, PlayerId, NewPlayer(infos[i]));
      i := i + 1;
    }
    assert records[..i] == records;
  }

  /** `init(players, settings)`: a fresh record per roster entry, the chosen passage and duration. */
  method Init(infos: seq<PlayerInfo>, settings: map<string, Json>, pick: nat, now: int)
    returns (s: State, config: Config)
    requires pick < |Passages(settings)|
    ensures s == State(Passages(settings)[pick], InitPlayers(infos), now, DurationSecs(settings))
    ensures config == Config(s.text, s.durationSecs)
    ensures Valid(s)
    ensures forall j :: 0 <= j < |s.players| ==> IsFresh(s.players[j])
  {
    InitPlayersSpec(infos);
    var text := Passages(settings)[pick];
    var players := BuildPlayers(infos);
    var durationSecs := DurationSecs(settings);
    s := State(text, players, now, durationSecs);
    config := Config(text, durationSecs);
    FreshStateValid(s);
  }

  /** A state whose records are all fresh is valid, whatever its (non-empty) passage. */
  lemma FreshStateValid(s: State)
    requires |s.text| > 0 && Roster.Distinct(s.players, PlayerId)
    requires forall j :: 0 <= j < |s.players| ==> IsFresh(s.players[j])
    ensures Valid(s)
  {
    forall j | 0 <= j < |s.players| ensures PlayerValid(s.players[j], s.text) {
      assert s.players[j].typed == [];
    }
  }

  // ---- onInput ----

  /** JavaScript's `\s`: ASCII whitespace and the Unicode space separators. */
  predicate IsSpace(c: char)
  {
    || c in {' ', '\t', '\n', '\r', '\U{B}', '\U{C}'}
    || c in {'\U{A0}', '\U{1680}', '\U{2028}', '\U{2029}', '\U{202F}', '\U{205F}', '\U{3000}', '\U{FEFF}'}
    || ('\U{2000}' <= c <= '\U{200A}')
  }

  /** `typed.split(/\s+/).filter(Boolean).length`: the number of maximal non-space runs. */
  function WordCount(s: string): (r: nat)
    ensures r <= |s|
    ensures r == 0 <==> forall i :: 0 <= i < |s| ==> IsSpace(s[i])
  {
    if |s| == 0 then 0
    else
      var prefix := s[..|s| - 1];
      var last := s[|s| - 1];
      var starts := !IsSpace(last) && (|s| == 1 || IsSpace(s[|s| - 2]));
      assert forall i :: 0 <= i < |prefix| ==> prefix[i] == s[i];
      WordCount(prefix) + (if starts then 1 else 0)
  }

  /** `isTypeRacerInput`: an object whose `typed` field is a string. */
  predicate IsTypeRacerInput(input: Json)
  {
    input.JObject? && "typed" in input.fields && input.fields["typed"].JStr?
  }

  /** Words per minute for `typed` after elapsedMs > 0 milliseconds. */
  function Wpm(typed: string, elapsedMs: int): (r: int)
    requires elapsedMs > 0
    ensures r >= 0
  {
    RoundDivMonotone(0, WordCount(typed) * 60000, elapsedMs);
    RoundDivExact(0, elapsedMs);
    RoundDiv(WordCount(typed) * 60000, elapsedMs)
  }

  /** Whether the input is accepted for the player at index i (all guards of onInput pass). */
  predicate Accepts(s: State, i: nat, input: Json)
    requires i < |s.players|
  {
    && !s.players[i].finished
    && IsTypeRacerInput(input)
    && |input.fields["typed"].s| <= |s.text|
    && input.fields["typed"].s <= s.text
  }

  /** `onInput(state, playerId, input)` at time now. */
  function OnInput(s: State, playerId: string, input: Json, now: int): (r: State)
    ensures r.text == s.text && r.startTime == s.startTime && r.durationSecs == s.durationSecs
    ensures |r.players| == |s.players|
    ensures forall j :: 0 <= j < |s.players| ==>
              r.players[j].id == s.players[j].id && r.players[j].name == s.players[j].name
    ensures forall j :: 0 <= j < |s.players| && s.players[j].finished ==> r.players[j] == s.players[j]
    ensures Valid(s) ==> Valid(r)
  {
    match Roster.IndexOf(s.players, PlayerId, playerId)
    case None => s
    case Some(i) =>
      var player := s.players[i];
      if player.finished then s
      else if !IsTypeRacerInput(input) then s
      else if |input.fields["typed"].s| > |s.text| then s
      else
        var typed := input.fields["typed"].s;
        if !(typed <= s.text) then s
        else
          var elapsedMs := now - s.startTime;
          var wpm := if elapsedMs > 0 then Wpm(typed, elapsedMs) else player.wpm;
          var done := typed == s.text;
          var updated := player.(typed := typed, wpm := wpm,
                                 finished := done || player.finished,
                                 finishTime := if done then Some(now) else player.finishTime);
          assert Valid(s) ==> PlayerValid(updated, s.text);
          s.(players := s.players[i := updated])
  }

  /** Input from an unknown or finished player, of the wrong shape, too long or not a prefix changes nothing. */
  lemma OnInputIgnored(s: State, playerId: string, input: Json, now: int)
    requires Roster.IndexOf(s.players, PlayerId, playerId).Some? ==>
               !Accepts(s, Roster.IndexOf(s.players, PlayerId, playerId).value, input)
    ensures OnInput(s, playerId, input, now) == s
  {
  }

  /** Accepted input replaces that player's typed text, finishing them exactly when it is the whole passage. */
  lemma OnInputAccepted(s: State, playerId: string, i: nat, input: Json, now: int)
    requires Roster.IndexOf(s.players, PlayerId, playerId) == Some(i)
    requires Accepts(s, i, input)
    ensures var r := OnInput(s, playerId, input, now);
      && r.players == s.players[i := r.players[i]]
      && r.players[i].typed == input.fields["typed"].s
      && (r.players[i].finished <==> input.fields["typed"].s == s.text)
      && r.players[i].finishTime == (if input.fields["typed"].s == s.text then Some(now) else s.players[i].finishTime)
  {
  }

  // ---- onPlayerDisconnect ----

  /** `onPlayerDisconnect`: a known player is marked finished (without a finish time). */
  function OnPlayerDisconnect(s: State, playerId: string): (r: State)
    ensures Roster.IndexOf(s.players, PlayerId, playerId).None? ==> r == s
    ensures Roster.IndexOf(s.players, PlayerId, playerId).Some? ==>
              var i := Roster.IndexOf(s.players, PlayerId, playerId).value;
              r == s.(players := s.players[i := s.players[i].(finished := true)])
    ensures Valid(s) ==> Valid(r)
  {
    match Roster.IndexOf(s.players, PlayerId, playerId)
    case None => s
    case Some(i) => s.(players := s.players[i := s.players[i].(finished := true)])
  }

  // ---- serialize / isGameOver ----

  function ViewOf(p: PlayerState, text: string): PlayerView
  {
    PlayerView(p.id, p.name, |p.typed|, |text|, p.wpm, p.finished)
  }

  /** `serialize(state, prev)`: always a full snapshot (`isDelta` is false). */
  function Serialize(s: State, now: int): (r: (View, bool))
    ensures !r.1
    ensures r.0.text == s.text && r.0.durationSecs == s.durationSecs && r.0.elapsedMs == now - s.startTime
    ensures |r.0.players| == |s.players|
    ensures forall i :: 0 <= i < |s.players| ==> r.0.players[i] == ViewOf(s.players[i], s.text)
  {
    (View(s.text, seq(|s.players|, i requires 0 <= i < |s.players| => ViewOf(s.players[i], s.text)),
          now - s.startTime, s.durationSecs),
     false)
  }

  predicate AllFinished(players: seq<PlayerState>)
  {
    forall i :: 0 <= i < |players| ==> players[i].finished
  }

  /** `isGameOver(state)` at time now: everybody finished, or the time limit has passed. */
  predicate IsGameOver(s: State, now: int)
  {
    AllFinished(s.players) || now - s.startTime > s.durationSecs * 1000
  }

  /** Game over stays game over: later in time, and after any input or disconnect. */
  lemma GameOverIsPermanent(s: State, playerId: string, input: Json, now: int, later: int)
    requires IsGameOver(s, now) && now <= later
    ensures IsGameOver(s, later)
    ensures IsGameOver(OnInput(s, playerId, input, now), later)
    ensures IsGameOver(OnPlayerDisconnect(s, playerId), later)
  {
  }

  // ---- getResults ----

  /** The comparator of getResults as a key: finished by finish time (null as 0), then unfinished by length typed, longest first. */
  function RaceKey(p: PlayerState): Key
  {
    if p.finished then Key(0, if p.finishTime.Some? then p.finishTime.value else 0)
    else Key(1, -|p.typed|)
  }

  /** The players in result order. */
  function Ranking(s: State): (r: seq<PlayerState>)
    ensures |r| == |s.players| && multiset(r) == multiset(s.players)
    ensures forall i, j :: 0 <= i < j < |r| && r[j].finished ==> r[i].finished
    ensures forall i, j :: 0 <= i < j < |r| && r[i].finished && r[j].finished ==>
              RaceKey(r[i]).minor <= RaceKey(r[j]).minor
    ensures forall i, j :: 0 <= i < j < |r| && !r[i].finished && !r[j].finished ==>
              |r[i].typed| >= |r[j].typed|
    ensures forall k :: WithKey(r, RaceKey, k) == WithKey(s.players, RaceKey, k)
  {
    SortByCorrect(s.players, RaceKey);
    SortBy(s.players, RaceKey)
  }

  function Score(p: PlayerState, i: nat, text: string): int
    requires |text| > 0
  {
    if p.finished then PositionScore(i) else RoundDiv(|p.typed| * 50, |text|)
  }

  function ResultOf(p: PlayerState, i: nat, text: string): GameResult
    requires |text| > 0
  {
    GameResult(p.id, p.name, Score(p, i, text), i + 1, TypingStats(p.wpm, |p.typed|, |text|))
  }

  /** `getResults(state)`. */
  function GetResults(s: State): (r: seq<GameResult>)
    requires |s.text| > 0
    ensures |r| == |s.players|
    ensures forall i :: 0 <= i < |r| ==> r[i] == ResultOf(Ranking(s)[i], i, s.text)
    ensures forall i :: 0 <= i < |r| ==> r[i].rank == i + 1
    ensures Valid(s) ==> forall i :: 0 <= i < |r| ==> 0 <= r[i].score <= 100
  {
    var ranked := Ranking(s);
    var r := seq(|ranked|, i requires 0 <= i < |ranked| => ResultOf(ranked[i], i, s.text));
    assert Valid(s) ==> forall i :: 0 <= i < |r| ==> 0 <= r[i].score <= 100 by {
      if Valid(s) {
        forall i | 0 <= i < |r| ensures 0 <= r[i].score <= 100 {
          assert ranked[i] in multiset(s.players);
          var j :| 0 <= j < |s.players| && s.players[j] == ranked[i];
          UnfinishedScoreBound(ranked[i], s.text);
        }
      }
    }
    r
  }

  /** An unfinished player scores round(50 * progress), which lies in [0, 50]. */
  lemma UnfinishedScoreBound(p: PlayerState, text: string)
    requires |text| > 0 && |p.typed| <= |text|
    ensures 0 <= RoundDiv(|p.typed| * 50, |text|) <= 50
  {
    RoundDivMonotone(0, |p.typed| * 50, |text|);
    RoundDivMonotone(|p.typed| * 50, 50 * |text|, |text|);
    RoundDivExact(0, |text|);
    RoundDivExact(50, |text|);
  }

  /**
   * A player who disconnected is finished with no finish time, which the
   * comparator reads as time 0: such a player is ranked ahead of every player
   * who really finished (at a positive clock reading).
   */
  lemma DisconnectedRanksAheadOfFinishers(s: State, i: nat, j: nat)
    requires i < |s.players| && j < |s.players|
    requires s.players[i].finished && s.players[i].finishTime.None?
    requires s.players[j].finished && s.players[j].finishTime.Some? && s.players[j].finishTime.value > 0
    ensures exists a, b :: 0 <= a < b < |Ranking(s)| && Ranking(s)[a] == s.players[i] && Ranking(s)[b] == s.players[j]
  {
    var r := Ranking(s);
    assert s.players[i] in multiset(r);
    assert s.players[j] in multiset(r);
    var a :| 0 <= a < |r| && r[a] == s.players[i];
    var b :| 0 <= b < |r| && r[b] == s.players[j];
    assert RaceKey(r[a]).minor == 0 < RaceKey(r[b]).minor;
    assert a < b;
  }
}
