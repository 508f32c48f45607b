/**
 * The room record of server.js (the object stored in `games[code]`,
 * server.js:278-288), the outbox of socket emissions and the log of calls
 * made on a room's simulation engine. A transition returns the new
 * registry together with what it emitted and what it asked the engine to do.
 */
module Rooms {
  import opened Wrappers
  import opened JsValues
  import opened Capacity
  import opened Roster
  import opened Registry

  /** Error codes a client can receive. */
  datatype ErrorCode = InvalidSettings | MaxRoomLimitReached | AlreadyCreatedRoom | RoomNotFound | RoomAlreadyJoined

  /**
   * `timeStart`: null until a countdown is first armed, a deadline while a
   * countdown runs, 0 once a countdown was cancelled. The clock value
   * itself is not modelled.
   */
  datatype TimeStart = Unset | Deadline | Zero

  /** Where an emission goes: one connection, or every connection subscribed to a room. */
  datatype Target = ToSocket(id: string) | ToRoom(code: string)

  /** The emissions of the room code, with the fields the room logic decides. */
  datatype Notice =
    | ProcessOk(code: string)
    | ProcessFailed(error: ErrorCode)
    | JoinAccepted
    | JoinRejected(error: ErrorCode)
    | MatchmakingState(searchingPlayers: bool, timeStart: TimeStart, playerNumber: nat, maxPlayers: int)
    | OnlineMaster
    | SpectatorMode
    | CurrentPlayer(slot: nat)
    | EngineSettings
    | StartAck
    | PauseAck
    | ResetAck
    | Killed
    | Stopped

  datatype Emit = Emit(to: Target, notice: Notice)

  /** Calls made on a room's simulation engine. */
  datatype EngineOp = GridInit | EngineInit | EngineStart | EngineReset

  datatype EngineCall = EngineCall(code: string, op: EngineOp)

  /** The engine snake a player is bound to; only the fields the room code writes. */
  datatype SnakeSlot = SnakeSlot(gameOver: bool, lastKey: Option<Value>)

  /** The server configuration fields the room logic reads. */
  datatype Config = Config(
    maxPlayers: int, maxRooms: int,
    minGridSize: int, maxGridSize: int, minSpeed: int, maxSpeed: int)

  /**
   * One room. `timerArmed` stands for `timeoutPlay != null`; `snakes` is the
   * engine's snake list, in which a player's `snake` field is an index.
   */
  datatype Room = Room(
    grid: GridSettings, speed: int, isPrivate: bool,
    players: seq<Player>, spectators: seq<Player>,
    searchingPlayers: bool, started: bool, alreadyInit: bool,
    timerArmed: bool, timeStart: TimeStart,
    snakes: seq<SnakeSlot>)

  type Rooms = Registry<Room>

  /** What a transition produces. */
  datatype Step = Step(reg: Rooms, out: seq<Emit>, calls: seq<EngineCall>)

  function MaxPlayers(cfg: Config, room: Room): int {
    GetMaxPlayers(cfg.maxPlayers, room.grid)
  }

  /** The room's rosters as Player.js sees them. */
  function RostersOf(room: Room): Rosters {
    Rosters(Lift(room.players), Lift(room.spectators))
  }

  /** The registry as Player.js sees it: rosters of each entry in key order. */
  function Games(reg: Rooms): (r: seq<Option<Rosters>>)
    ensures |r| == |reg.keys|
    ensures forall i :: 0 <= i < |reg.keys| ==>
              r[i] == (if reg.Get(reg.keys[i]).Some? then Some(RostersOf(reg.Get(reg.keys[i]).value)) else None)
  {
    var vs := reg.Values();
    seq(|vs|, i requires 0 <= i < |vs| => if vs[i].Some? then Some(RostersOf(vs[i].value)) else None)
  }

  /** A member of one of the room's rosters matches `c`. */
  predicate InRoom(room: Room, c: Criterion) {
    || (exists i :: 0 <= i < |room.players| && Matches(Some(room.players[i]), c))
    || (exists i :: 0 <= i < |room.spectators| && Matches(Some(room.spectators[i]), c))
  }

  /** Some live room has a member matching `c`. */
  ghost predicate Occupied(reg: Rooms, c: Criterion) {
    exists code :: reg.Live(code) && InRoom(reg.entries[code].value, c)
  }

  /** The room is fresh: searching, not started, no members, no countdown. */
  predicate Fresh(room: Room) {
    && room.searchingPlayers && !room.started && !room.alreadyInit
    && room.players == [] && room.spectators == []
    && !room.timerArmed && room.timeStart == Unset
    && room.snakes == []
  }

  lemma RoomHasIffInRoom(room: Room, c: Criterion)
    ensures RoomHas(Some(RostersOf(room)), c) <==> InRoom(room, c)
  {
    var r := RostersOf(room);
    if InRoom(room, c) {
      if i :| 0 <= i < |room.players| && Matches(Some(room.players[i]), c) {
        assert Matches(r.players[i], c);
      } else {
        var i :| 0 <= i < |room.spectators| && Matches(Some(room.spectators[i]), c);
        assert Matches(r.spectators[i], c);
      }
    }
  }

  /**
   * The all-rooms searches of Player.js answer exactly whether some live
   * room has a matching member; the token search is the unguarded copy of
   * server.js.
   */
  lemma {:induction false} AllGamesSearchIsOccupied(reg: Rooms, id: string, token: Option<string>)
    requires reg.Valid()
    ensures ContainsIdAllGames(id, Games(reg)) <==> Occupied(reg, IdIs(id))
    ensures ContainsTokenAllGames(token, Games(reg), false) <==> Occupied(reg, TokenIs(token))
  {
    var g := Games(reg);
    forall c: Criterion
      ensures (exists k :: 0 <= k < |g| && RoomHas(g[k], c)) <==> Occupied(reg, c)
    {
      if k :| 0 <= k < |g| && RoomHas(g[k], c) {
        var code := reg.keys[k];
        RoomHasIffInRoom(reg.Get(code).value, c);
        assert reg.Live(code) && InRoom(reg.entries[code].value, c);
      }
      if Occupied(reg, c) {
        var code :| reg.Live(code) && InRoom(reg.entries[code].value, c);
        var k :| 0 <= k < |reg.keys| && reg.keys[k] == code;
        RoomHasIffInRoom(reg.entries[code].value, c);
        assert RoomHas(g[k], c);
      }
    }
  }
}
