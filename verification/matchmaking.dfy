/**
 * The matchmaking scheduler and the round start of server.js:
 * `gameMatchmaking` (515-566), `startGame` (568-603), `setupSpectators`
 * (605-617), the countdown's expiry (537-540) and the reset of the
 * lifecycle flags on the engine's stop event (401-404).
 */
module Matchmaking {
  import opened Wrappers
  import opened JsValues
  import opened Roster
  import opened Registry
  import opened Rooms

  /** A copy of each player with `ready` set, in the same order. */
  function MarkReady(s: seq<Player>): (r: seq<Player>)
    ensures |r| == |s|
    ensures forall i :: 0 <= i < |s| ==> r[i] == s[i].(ready := true)
  {
    seq(|s|, i requires 0 <= i < |s| => s[i].(ready := true))
  }

  /** How many spectators a room with these rosters promotes under capacity `max`. */
  function PromotionCount(players: nat, spectators: nat, max: int): (k: nat)
    ensures k <= spectators
    ensures players < max ==> k == Min(spectators, max - players)
    ensures players >= max ==> k == 0
  {
    if players < max then Min(spectators, max - players) else 0
  }

  /**
   * The promotion of server.js:519-529: the first spectators, in arrival
   * order, join the end of the players marked ready, until the room is at
   * capacity or no spectator is left.
   */
  function Promote(room: Room, max: int): (r: Room)
    ensures var k := PromotionCount(|room.players|, |room.spectators|, max);
            && r.players == room.players + MarkReady(room.spectators[..k])
            && r.spectators == room.spectators[k..]
    ensures r == room.(players := r.players, spectators := r.spectators)
  {
    var k := PromotionCount(|room.players|, |room.spectators|, max);
    room.(players := room.players + MarkReady(room.spectators[..k]), spectators := room.spectators[k..])
  }

  /** Drop the nulled-out entries (`spectators.filter(s => s != null)`). */
  function DropNulls(s: seq<Option<Player>>): (r: seq<Player>)
    ensures |r| <= |s|
  {
    if |s| == 0 then []
    else if s[0].None? then DropNulls(s[1..])
    else [s[0].value] + DropNulls(s[1..])
  }

  lemma {:induction false} DropNullsOfSuffix(s: seq<Option<Player>>, k: nat, rest: seq<Player>)
    requires k <= |s| && |rest| == |s| - k
    requires forall i :: 0 <= i < k ==> s[i].None?
    requires forall i :: k <= i < |s| ==> s[i] == Some(rest[i - k])
    ensures DropNulls(s) == rest
    decreases |s|
  {
    if |s| == 0 {
    } else if k > 0 {
      DropNullsOfSuffix(s[1..], k - 1, rest);
    } else {
      DropNullsOfSuffix(s[1..], 0, rest[1..]);
    }
  }

  /**
   * The promotion loop as the source writes it: copy each of the first
   * spectators onto the players with `ready` set, null its slot, then filter
   * the nulls out. It computes what `Promote` states.
   */
  method PromoteLoop(players: seq<Player>, spectators: seq<Player>, toAdd: int)
    returns (newPlayers: seq<Player>, newSpectators: seq<Player>)
    ensures var k := if toAdd <= 0 then 0 else Min(|spectators|, toAdd);
            && newPlayers == players + MarkReady(spectators[..k])
            && newSpectators == spectators[k..]
  {
    var slots := Lift(spectators);
    newPlayers := players;
    var i := 0;
    while i < |slots| && i < toAdd
      invariant |slots| == |spectators|
      invariant 0 <= i <= |slots|
      invariant toAdd <= 0 ==> i == 0
      invariant i <= toAdd || i == 0
      invariant newPlayers == players + MarkReady(spectators[..i])
      invariant forall j :: 0 <= j < i ==> slots[j].None?
      invariant forall j :: i <= j < |slots| ==> slots[j] == Some(spectators[j])
    {
      assert spectators[..i + 1] == spectators[..i] + [spectators[i]];
      assert MarkReady(spectators[..i + 1]) == MarkReady(spectators[..i]) + [spectators[i].(ready := true)];
      newPlayers := newPlayers + [slots[i].value.(ready := true)];
      slots := slots[i := None];
      i := i + 1;
    }
    DropNullsOfSuffix(slots, i, spectators[i..]);
    newSpectators := DropNulls(slots);
  }

  /**
   * The countdown rule of server.js:531-545: with more than one player a
   * countdown is armed unless one already runs; with exactly one an armed
   * countdown is cancelled and `timeStart` becomes 0; an empty room keeps
   * its timer state.
   */
  function ArmOrCancel(room: Room): (r: Room)
    ensures r.players == room.players && r.spectators == room.spectators
    ensures |room.players| > 1 ==> r.timerArmed
    ensures |room.players| == 1 ==> !r.timerArmed
    ensures |room.players| == 0 ==> r == room
    ensures r.timeStart != room.timeStart ==>
              (|room.players| > 1 && !room.timerArmed && r.timeStart == Deadline)
              || (|room.players| == 1 && room.timerArmed && r.timeStart == Zero)
    ensures r == room.(timerArmed := r.timerArmed, timeStart := r.timeStart)
  {
    var n := |room.players|;
    if n > 0 then
      if n > 1 && !room.timerArmed then room.(timerArmed := true, timeStart := Deadline)
      else if n <= 1 && room.timerArmed then room.(timerArmed := false, timeStart := Zero)
      else room
    else room
  }

  /** `setupSpectators`: tell every spectator of a live room that it spectates. */
  function SetupSpectators(reg: Rooms, code: string): (out: seq<Emit>)
    ensures reg.Live(code) ==> |out| == |reg.entries[code].value.spectators|
    ensures reg.Live(code) ==> forall i :: 0 <= i < |out| ==>
              out[i] == Emit(ToSocket(reg.entries[code].value.spectators[i].id), SpectatorMode)
    ensures !reg.Live(code) ==> out == []
  {
    if reg.Live(code) then
      var spectators := reg.entries[code].value.spectators;
      seq(|spectators|, i requires 0 <= i < |spectators| => Emit(ToSocket(spectators[i].id), SpectatorMode))
    else []
  }

  /** The room a live, searching room becomes after one matchmaking pass. */
  function Matched(cfg: Config, room: Room): Room {
    ArmOrCancel(Promote(room, MaxPlayers(cfg, room)))
  }

  /**
   * `gameMatchmaking(game, code)`: on a live room that is searching for
   * players, promote spectators and arm or cancel the countdown, then
   * broadcast the matchmaking state; always end with `setupSpectators`.
   */
  function GameMatchmaking(cfg: Config, reg: Rooms, code: string): (r: Step)
    ensures r.calls == []
    ensures r.reg.keys == reg.keys && r.reg.entries.Keys == reg.entries.Keys
    ensures forall c :: c in reg.entries && c != code ==> r.reg.entries[c] == reg.entries[c]
    ensures !(reg.Live(code) && reg.entries[code].value.searchingPlayers) ==> r.reg == reg
    ensures !reg.Live(code) ==> r.out == []
    ensures reg.Live(code) && reg.entries[code].value.searchingPlayers ==>
              var room := reg.entries[code].value;
              var k := PromotionCount(|room.players|, |room.spectators|, MaxPlayers(cfg, room));
              && r.reg.Live(code)
              && r.reg.entries[code].value.players == room.players + MarkReady(room.spectators[..k])
              && r.reg.entries[code].value.spectators == room.spectators[k..]
  {
    if reg.Live(code) && reg.entries[code].value.searchingPlayers then
      var room := reg.entries[code].value;
      var max := MaxPlayers(cfg, room);
      var after := Matched(cfg, room);
      var reg' := reg.Put(code, after);
      var n := |after.players|;
      var announce :=
        if n > 0 then
          [Emit(ToRoom(code), MatchmakingState(true, after.timeStart, n, max)),
           Emit(ToSocket(after.players[0].id), OnlineMaster)]
        else [];
      Step(reg', announce + SetupSpectators(reg', code), [])
    else
      Step(reg, SetupSpectators(reg, code), [])
  }

  /** A countdown armed by matchmaking is running iff more than one player is present. */
  lemma MatchmakingTimerRule(cfg: Config, reg: Rooms, code: string)
    requires reg.Live(code) && reg.entries[code].value.searchingPlayers
    ensures var room := GameMatchmaking(cfg, reg, code).reg.entries[code].value;
            && (|room.players| > 1 ==> room.timerArmed)
            && (|room.players| == 1 ==> !room.timerArmed && (reg.entries[code].value.timerArmed ==> room.timeStart == Zero))
  {
  }

  /**
   * Matchmaking twice in a row with no membership change in between changes
   * nothing the second time: no further promotion, no second countdown.
   */
  lemma MatchmakingIdempotent(cfg: Config, reg: Rooms, code: string)
    ensures var once := GameMatchmaking(cfg, reg, code).reg;
            GameMatchmaking(cfg, once, code).reg == once
  {
    var once := GameMatchmaking(cfg, reg, code).reg;
    if reg.Live(code) && reg.entries[code].value.searchingPlayers {
      var room := once.entries[code].value;
      var max := MaxPlayers(cfg, room);
      assert PromotionCount(|room.players|, |room.spectators|, max) == 0;
      assert room.spectators[..0] == [];
      assert room.players + MarkReady([]) == room.players;
      assert Promote(room, max) == room;
      assert ArmOrCancel(room) == room;
      assert once.Put(code, room) == once;
    }
  }

  /** A fresh snake for each player of a new round. */
  function FreshSnakes(n: nat): (r: seq<SnakeSlot>)
    ensures |r| == n && forall i :: 0 <= i < n ==> r[i] == SnakeSlot(false, None)
  {
    seq(n, i => SnakeSlot(false, None))
  }

  /** Bind player i to engine snake i. */
  function BindSnakes(players: seq<Player>): (r: seq<Player>)
    ensures |r| == |players|
    ensures forall i :: 0 <= i < |players| ==> r[i] == players[i].(snake := Some(i))
  {
    seq(|players|, i requires 0 <= i < |players| => players[i].(snake := Some(i)))
  }

  /** Tell each player its 1-based slot. */
  function AnnounceSlots(players: seq<Player>): (r: seq<Emit>)
    ensures |r| == |players|
    ensures forall i :: 0 <= i < |players| ==> r[i] == Emit(ToSocket(players[i].id), CurrentPlayer(i + 1))
  {
    seq(|players|, i requires 0 <= i < |players| => Emit(ToSocket(players[i].id), CurrentPlayer(i + 1)))
  }

  /**
   * `startGame(code)`: on a live room, cancel the countdown, mark the room
   * started, give every player a new snake in roster order, re-initialise
   * the grid, and call init+start on the engine the first time, init+reset
   * afterwards. A tombstoned code is left alone.
   */
  function StartGame(reg: Rooms, code: string): (r: Step)
    ensures r.reg.keys == reg.keys && r.reg.entries.Keys == reg.entries.Keys
    ensures forall c :: c in reg.entries && c != code ==> r.reg.entries[c] == reg.entries[c]
    ensures !reg.Live(code) ==> r == Step(reg, [], [])
    ensures reg.Live(code) ==> r.reg.Live(code) && |r.out| >= |reg.entries[code].value.players|
    ensures reg.Live(code) ==>
              var before := reg.entries[code].value;
              var after := r.reg.entries[code].value;
              && after.started && !after.searchingPlayers && !after.timerArmed && after.alreadyInit
              && |after.players| == |before.players| && |after.snakes| == |before.players|
              && (forall i :: 0 <= i < |after.players| ==>
                    after.players[i] == before.players[i].(snake := Some(i)) && !after.snakes[i].gameOver)
              && after.spectators == before.spectators
              && r.out[..|before.players|] == AnnounceSlots(before.players)
              && r.calls == (if before.alreadyInit
                             then [EngineCall(code, GridInit), EngineCall(code, EngineInit), EngineCall(code, EngineReset)]
                             else [EngineCall(code, GridInit), EngineCall(code, EngineInit), EngineCall(code, EngineStart)])
  {
    if reg.Live(code) then
      var room := reg.entries[code].value;
      var after := room.(
        timerArmed := false, searchingPlayers := false, started := true, alreadyInit := true,
        snakes := FreshSnakes(|room.players|), players := BindSnakes(room.players));
      var reg' := reg.Put(code, after);
      var first := if room.alreadyInit then EngineReset else EngineStart;
      Step(reg', AnnounceSlots(room.players) + SetupSpectators(reg', code),
           [EngineCall(code, GridInit), EngineCall(code, EngineInit), EngineCall(code, first)])
    else Step(reg, [], [])
  }

  /** The countdown expires: it disarms itself and starts the round. */
  function TimerFired(reg: Rooms, code: string): (r: Step)
    ensures !(reg.Live(code) && reg.entries[code].value.timerArmed) ==> r == Step(reg, [], [])
    ensures reg.Live(code) && reg.entries[code].value.timerArmed ==>
              && r.reg.keys == reg.keys && r.reg.entries.Keys == reg.entries.Keys
              && (forall c :: c in reg.entries && c != code ==> r.reg.entries[c] == reg.entries[c])
              && r.reg.Live(code) && |r.out| >= |reg.entries[code].value.players|
    ensures reg.Live(code) && reg.entries[code].value.timerArmed ==>
              var before := reg.entries[code].value;
              var after := r.reg.entries[code].value;
              && after.started && !after.searchingPlayers && !after.timerArmed
              && |after.players| == |before.players| && after.spectators == before.spectators
              && r.out[..|before.players|] == AnnounceSlots(before.players)
  {
    if reg.Live(code) && reg.entries[code].value.timerArmed then
      StartGame(reg.Put(code, reg.entries[code].value.(timerArmed := false)), code)
    else Step(reg, [], [])
  }

  /**
   * The engine's stop event: the room is told, and a live room goes back to
   * searching for players (server.js:388-405).
   */
  function OnStop(reg: Rooms, code: string): (r: Step)
    ensures r.out == [Emit(ToRoom(code), Stopped)] && r.calls == []
    ensures !reg.Live(code) ==> r.reg == reg
    ensures reg.Live(code) ==>
              r.reg == reg.Put(code, reg.entries[code].value.(started := false, searchingPlayers := true))
  {
    var reg' := if reg.Live(code) then reg.Put(code, reg.entries[code].value.(started := false, searchingPlayers := true)) else reg;
    Step(reg', [Emit(ToRoom(code), Stopped)], [])
  }

  /**
   * A round runs from start to stop: the room is searching again, keeps its
   * members in the same order, has bound snakes, and a second start resets
   * the engine instead of starting it.
   */
  lemma StartStopCycle(reg: Rooms, code: string)
    requires reg.Live(code)
    ensures var started := StartGame(reg, code).reg;
            var stopped := OnStop(started, code).reg;
            var room := stopped.entries[code].value;
            && room.searchingPlayers && !room.started && room.alreadyInit
            && |room.players| == |reg.entries[code].value.players|
            && StartGame(stopped, code).calls[2] == EngineCall(code, EngineReset)
  {
  }
}
