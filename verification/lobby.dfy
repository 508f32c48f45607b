/**
 * The room registry operations and per-connection handlers of server.js:
 * `createRoom` (219-320), `cleanRooms` (493-513), `exitGame` (619-642),
 * `getRoomsData` (145-180) and the handlers a successful `join-room`
 * installs (804-906). The identity token lookups are the unguarded copy
 * inlined in server.js (101-109).
 */
module Lobby {
  import opened Wrappers
  import opened JsValues
  import opened Capacity
  import opened Settings
  import opened Roster
  import opened Registry
  import opened Rooms
  import opened Matchmaking

  function BoundsOf(cfg: Config): Bounds {
    Bounds(cfg.minGridSize, cfg.maxGridSize, cfg.minSpeed, cfg.maxSpeed)
  }

  /** The room `createRoom` stores for valid settings. */
  function NewRoom(s: RoomSettings): (r: Room)
    ensures Fresh(r)
  {
    Room(s.grid, s.speed, s.isPrivate, [], [], true, false, false, false, Unset, [])
  }

  /** The first test of `createRoom`: room limit, and the caller is in no live room. */
  predicate MayCreate(cfg: Config, reg: Rooms, token: Option<string>, id: string) {
    && reg.LiveCount() < cfg.maxRooms
    && !ContainsTokenAllGames(token, Games(reg), false)
    && !ContainsIdAllGames(id, Games(reg))
  }

  /**
   * `createRoom(data, socket)`. `draws` are the codes the random generator
   * would produce; the first one not already a key is used.
   */
  function CreateRoom(cfg: Config, reg: Rooms, data: CreateData, token: Option<string>, id: string, draws: seq<string>): (r: Step)
    requires GetRandomRoomKey(reg, draws).Some?
    ensures |r.out| == 1 && r.out[0].to == ToSocket(id)
    ensures r.calls == if r.out[0].notice.ProcessOk? then [EngineCall(r.out[0].notice.code, GridInit)] else []
    ensures r.out[0].notice.ProcessOk? <==> MayCreate(cfg, reg, token, id) && ValidateSettings(data, BoundsOf(cfg)).Some?
    ensures r.out[0].notice.ProcessOk? ==>
              var code := r.out[0].notice.code;
              && code !in reg.entries
              && r.reg == reg.Add(code, NewRoom(ValidateSettings(data, BoundsOf(cfg)).value))
    ensures !r.out[0].notice.ProcessOk? ==> r.reg == reg && r.out[0].notice.ProcessFailed?
    ensures r.out[0].notice == ProcessFailed(AlreadyCreatedRoom) <==>
              ContainsTokenAllGames(token, Games(reg), false) || ContainsIdAllGames(id, Games(reg))
    ensures r.out[0].notice == ProcessFailed(MaxRoomLimitReached) <==>
              !ContainsTokenAllGames(token, Games(reg), false) && !ContainsIdAllGames(id, Games(reg))
              && reg.LiveCount() >= cfg.maxRooms
    ensures MayCreate(cfg, reg, token, id) && ValidateSettings(data, BoundsOf(cfg)).None? ==>
              r == Step(reg, [Emit(ToSocket(id), ProcessFailed(InvalidSettings))], [])
  {
    if MayCreate(cfg, reg, token, id) then
      match ValidateSettings(data, BoundsOf(cfg))
      case Some(s) =>
        var code := GetRandomRoomKey(reg, draws).value;
        Step(reg.Add(code, NewRoom(s)), [Emit(ToSocket(id), ProcessOk(code))], [EngineCall(code, GridInit)])
      case None =>
        Step(reg, [Emit(ToSocket(id), ProcessFailed(InvalidSettings))], [])
    else if ContainsTokenAllGames(token, Games(reg), false) || ContainsIdAllGames(id, Games(reg)) then
      Step(reg, [Emit(ToSocket(id), ProcessFailed(AlreadyCreatedRoom))], [])
    else
      Step(reg, [Emit(ToSocket(id), ProcessFailed(MaxRoomLimitReached))], [])
  }

  /**
   * The creation contract in registry terms: a room is added iff fewer live
   * rooms than the limit exist, neither the token nor the id is in a live
   * room, and the settings are valid.
   */
  lemma CreateRoomAddsExactlyOne(cfg: Config, reg: Rooms, data: CreateData, token: Option<string>, id: string, draws: seq<string>)
    requires reg.Valid() && GetRandomRoomKey(reg, draws).Some?
    ensures var r := CreateRoom(cfg, reg, data, token, id, draws);
            && r.reg.Valid()
            && (r.reg != reg <==>
                  && reg.LiveCount() < cfg.maxRooms
                  && !Occupied(reg, TokenIs(token)) && !Occupied(reg, IdIs(id))
                  && ValidateSettings(data, BoundsOf(cfg)).Some?)
            && (r.reg != reg ==> exists code :: code !in reg.entries && r.reg.Live(code) && Fresh(r.reg.entries[code].value)
                                                && r.reg.entries == reg.entries[code := r.reg.entries[code]])
  {
    AllGamesSearchIsOccupied(reg, id, token);
    var r := CreateRoom(cfg, reg, data, token, id, draws);
    if r.out[0].notice.ProcessOk? {
      var code := r.out[0].notice.code;
      assert code in r.reg.entries && code !in reg.entries;
    }
  }

  // ---------------------------------------------------------------------
  // Reaping

  /** `String(Object.keys(a))` for an array of length n: "0,1,...,n-1". */
  function KeysString(n: nat): (r: string)
    ensures n == 0 <==> |r| == 0
  {
    if n == 0 then ""
    else if n == 1 then "0"
    else KeysString(n - 1) + "," + NatToString(n - 1)
  }

  /**
   * The member count `cleanRooms` compares with 0: the length of
   * `Object.keys(players) + Object.keys(spectators)`, a string concatenation.
   */
  function MemberCount(room: Room): (nb: nat)
    ensures nb == 0 <==> room.players == [] && room.spectators == []
  {
    |KeysString(|room.players|) + KeysString(|room.spectators|)|
  }

  /** `cleanRooms()`: set to null every live room with no player and no spectator. */
  function CleanRooms(reg: Rooms): (r: Rooms)
    ensures r.keys == reg.keys && r.entries.Keys == reg.entries.Keys
    ensures forall c :: c in reg.entries ==>
              (r.entries[c].None? <==> reg.entries[c].None? || (reg.entries[c].value.players == [] && reg.entries[c].value.spectators == []))
    ensures forall c :: c in reg.entries && r.entries[c].Some? ==> r.entries[c] == reg.entries[c]
    ensures reg.Valid() ==> r.Valid()
  {
    Registry(reg.keys, map c | c in reg.entries ::
      if reg.entries[c].Some? && MemberCount(reg.entries[c].value) <= 0 then None else reg.entries[c])
  }

  /** Reaping twice is reaping once. */
  lemma CleanRoomsIdempotent(reg: Rooms)
    ensures CleanRooms(CleanRooms(reg)) == CleanRooms(reg)
  {
  }

  /**
   * A room just created has no member yet, so any reaping that runs before
   * its creator joins (another connection's exit) tombstones it.
   */
  lemma CreatedRoomReapedBeforeJoin(cfg: Config, reg: Rooms, data: CreateData, token: Option<string>, id: string, draws: seq<string>)
    requires GetRandomRoomKey(reg, draws).Some?
    requires MayCreate(cfg, reg, token, id) && ValidateSettings(data, BoundsOf(cfg)).Some?
    ensures var r := CreateRoom(cfg, reg, data, token, id, draws);
            var code := r.out[0].notice.code;
            CleanRooms(r.reg).entries[code].None?
  {
  }

  // ---------------------------------------------------------------------
  // Membership

  /** The roster without the entries of connection `id`; the others keep their order. */
  function Without(s: seq<Player>, id: string): (r: seq<Player>)
    ensures |r| <= |s|
    ensures forall i :: 0 <= i < |r| ==> r[i].id != id
  {
    if |s| == 0 then []
    else if s[0].id == id then Without(s[1..], id)
    else [s[0]] + Without(s[1..], id)
  }

  /** The roster without `id` keeps exactly the other members. */
  lemma {:induction false} WithoutMembers(s: seq<Player>, id: string)
    ensures forall p :: p in Without(s, id) <==> p in s && p.id != id
    decreases |s|
  {
    if |s| > 0 {
      WithoutMembers(s[1..], id);
      assert s == [s[0]] + s[1..];
    }
  }

  /** Removing an id that is at one position only is deleting that position. */
  lemma {:induction false} WithoutSingle(s: seq<Player>, id: string, i: nat)
    requires i < |s| && s[i].id == id
    requires forall j :: 0 <= j < |s| && j != i ==> s[j].id != id
    ensures Without(s, id) == s[..i] + s[i + 1..]
    decreases |s|
  {
    var rest := s[1..];
    if i == 0 {
      assert Without(s, id) == Without(rest, id);
      WithoutAbsent(rest, id);
    } else {
      assert s[0].id != id;
      assert Without(s, id) == [s[0]] + Without(rest, id);
      assert forall j :: 0 <= j < |rest| && j != i - 1 ==> rest[j].id != id by {
        forall j | 0 <= j < |rest| && j != i - 1 ensures rest[j].id != id {
          assert rest[j] == s[j + 1];
        }
      }
      WithoutSingle(rest, id, i - 1);
      assert rest[..i - 1] == s[1..i];
      assert rest[i..] == s[i + 1..];
      assert s[..i] == [s[0]] + s[1..i];
    }
  }

  /** Removing an id that is not there leaves the roster as it was. */
  lemma {:induction false} WithoutAbsent(s: seq<Player>, id: string)
    requires forall j :: 0 <= j < |s| ==> s[j].id != id
    ensures Without(s, id) == s
    decreases |s|
  {
    if |s| > 0 {
      WithoutAbsent(s[1..], id);
      assert s == [s[0]] + s[1..];
    }
  }

  /** The roster lookup of server.js on a room roster. */
  function PlayerIn(s: seq<Player>, id: string): Option<Player> {
    GetPlayer(Lift(s), id)
  }

  /** Mark the snake bound to connection `id`, if it is a player with a snake, as game over. */
  function MarkGameOver(room: Room, id: string): (r: Room)
    ensures r == room.(snakes := r.snakes) && |r.snakes| == |room.snakes|
    ensures forall i :: 0 <= i < |room.snakes| && r.snakes[i] != room.snakes[i] ==>
              r.snakes[i] == room.snakes[i].(gameOver := true)
              && PlayerIn(room.players, id).Some? && PlayerIn(room.players, id).value.snake == Some(i)
    ensures PlayerIn(room.players, id).Some? && PlayerIn(room.players, id).value.snake.Some?
            && PlayerIn(room.players, id).value.snake.value < |room.snakes| ==>
              r.snakes[PlayerIn(room.players, id).value.snake.value].gameOver
  {
    var p := PlayerIn(room.players, id);
    if p.Some? && p.value.snake.Some? && p.value.snake.value < |room.snakes| then
      var i := p.value.snake.value;
      room.(snakes := room.snakes[i := room.snakes[i].(gameOver := true)])
    else room
  }

  /** The room after the caller left it: snake marked, caller removed from both rosters. */
  function Leave(room: Room, id: string): (r: Room) {
    var marked := MarkGameOver(room, id);
    marked.(players := Without(marked.players, id), spectators := Without(marked.spectators, id))
  }

  /**
   * `exitGame(game, socket, code)`, the single path of exit, kill, error and
   * disconnect: mark the caller's snake game over, acknowledge with `kill`,
   * drop the caller from both rosters, reap empty rooms, then rerun
   * matchmaking for the room.
   */
  function ExitGame(cfg: Config, reg: Rooms, code: string, id: string): (r: Step)
    ensures r.calls == []
    ensures |r.out| >= 1 && r.out[0] == Emit(ToSocket(id), Killed)
    ensures r.reg.keys == reg.keys && r.reg.entries.Keys == reg.entries.Keys
    ensures reg.Live(code) ==>
              var left := Leave(reg.entries[code].value, id);
              && (left.players == [] && left.spectators == [] <==> r.reg.entries[code].None?)
              && (r.reg.Live(code) ==> r.reg == GameMatchmaking(cfg, CleanRooms(reg.Put(code, left)), code).reg)
    ensures forall c :: c in reg.entries && c != code ==>
              r.reg.entries[c] == CleanRooms(reg).entries[c]
  {
    var reg1 := if reg.Live(code) then reg.Put(code, Leave(reg.entries[code].value, id)) else reg;
    var reg2 := CleanRooms(reg1);
    var mm := GameMatchmaking(cfg, reg2, code);
    Step(mm.reg, [Emit(ToSocket(id), Killed)] + mm.out, [])
  }

  /**
   * Exit seen from the roster: the leaver is gone from both rosters and the
   * remaining members keep their order; when matchmaking is idle (the
   * round is running) that is all that changes besides the snake.
   */
  lemma ExitRemovesOnlyCaller(cfg: Config, reg: Rooms, code: string, id: string, i: nat)
    requires reg.Live(code)
    requires var room := reg.entries[code].value;
             && i < |room.players| && room.players[i].id == id
             && (forall j :: 0 <= j < |room.players| && j != i ==> room.players[j].id != id)
             && (forall j :: 0 <= j < |room.spectators| ==> room.spectators[j].id != id)
             && (|room.players| > 1 || |room.spectators| > 0)
             && !room.searchingPlayers
    ensures var room := reg.entries[code].value;
            var after := ExitGame(cfg, reg, code, id).reg;
            && after.Live(code)
            && after.entries[code].value.players == room.players[..i] + room.players[i + 1..]
            && after.entries[code].value.spectators == room.spectators
  {
    var room := reg.entries[code].value;
    var marked := MarkGameOver(room, id);
    WithoutSingle(marked.players, id, i);
    WithoutAbsent(marked.spectators, id);
  }

  // ---------------------------------------------------------------------
  // Joining

  /** The join test of server.js:810: the room is live and the caller is in no live room. */
  predicate CanJoin(reg: Rooms, code: string, token: Option<string>, id: string) {
    && reg.Live(code)
    && !ContainsId(Lift(reg.entries[code].value.players), id)
    && !ContainsId(Lift(reg.entries[code].value.spectators), id)
    && !ContainsToken(Lift(reg.entries[code].value.players), token, false)
    && !ContainsToken(Lift(reg.entries[code].value.spectators), token, false)
    && !ContainsTokenAllGames(token, Games(reg), false)
    && !ContainsIdAllGames(id, Games(reg))
  }

  /** The joiner is already a member of this very room (by id or by token). */
  predicate AlreadyInRoom(room: Room, token: Option<string>, id: string) {
    || ContainsId(Lift(room.players), id) || ContainsId(Lift(room.spectators), id)
    || ContainsToken(Lift(room.players), token, false) || ContainsToken(Lift(room.spectators), token, false)
  }

  /**
   * `join-room`: a joiner becomes a spectator when the room is at capacity
   * or its round has started, a player otherwise. Failures reply
   * ROOM_NOT_FOUND, ROOM_ALREADY_JOINED, ALREADY_CREATED_ROOM in that order.
   */
  function JoinRoom(cfg: Config, reg: Rooms, code: string, token: Option<string>, id: string, version: Value): (r: Step)
    ensures r.calls == [] && |r.out| == 1 && r.out[0].to == ToSocket(id)
    ensures r.out[0].notice == JoinAccepted <==> CanJoin(reg, code, token, id)
    ensures !CanJoin(reg, code, token, id) ==> r.reg == reg
    ensures !reg.Live(code) ==> r.out[0].notice == JoinRejected(RoomNotFound)
    ensures reg.Live(code) && AlreadyInRoom(reg.entries[code].value, token, id) ==>
              r.out[0].notice == JoinRejected(RoomAlreadyJoined)
    ensures reg.Live(code) && !AlreadyInRoom(reg.entries[code].value, token, id) && !CanJoin(reg, code, token, id) ==>
              r.out[0].notice == JoinRejected(AlreadyCreatedRoom)
    ensures CanJoin(reg, code, token, id) ==>
              var room := reg.entries[code].value;
              var p := Player(token, id, None, false, version);
              r.reg == reg.Put(code,
                if |room.players| >= MaxPlayers(cfg, room) || room.started
                then room.(spectators := room.spectators + [p])
                else room.(players := room.players + [p]))
  {
    if CanJoin(reg, code, token, id) then
      var room := reg.entries[code].value;
      var p := Player(token, id, None, false, version);
      var room' :=
        if |room.players| >= MaxPlayers(cfg, room) || room.started
        then room.(spectators := room.spectators + [p])
        else room.(players := room.players + [p]);
      Step(reg.Put(code, room'), [Emit(ToSocket(id), JoinAccepted)], [])
    else if !reg.Live(code) then
      Step(reg, [Emit(ToSocket(id), JoinRejected(RoomNotFound))], [])
    else if AlreadyInRoom(reg.entries[code].value, token, id) then
      Step(reg, [Emit(ToSocket(id), JoinRejected(RoomAlreadyJoined))], [])
    else
      Step(reg, [Emit(ToSocket(id), JoinRejected(AlreadyCreatedRoom))], [])
  }

  /** A member of this room found by the room's own searches is a member in registry terms. */
  lemma AlreadyInRoomIsInRoom(room: Room, token: Option<string>, id: string)
    ensures AlreadyInRoom(room, token, id) ==> InRoom(room, IdIs(id)) || InRoom(room, TokenIs(token))
  {
    if ContainsId(Lift(room.players), id) {
      var i :| 0 <= i < |room.players| && Lift(room.players)[i].Some? && Lift(room.players)[i].value.id == id;
      assert Matches(Some(room.players[i]), IdIs(id));
    } else if ContainsId(Lift(room.spectators), id) {
      var i :| 0 <= i < |room.spectators| && Lift(room.spectators)[i].Some? && Lift(room.spectators)[i].value.id == id;
      assert Matches(Some(room.spectators[i]), IdIs(id));
    } else if ContainsToken(Lift(room.players), token, false) {
      var i :| 0 <= i < |room.players| && Lift(room.players)[i].Some? && Lift(room.players)[i].value.token == token;
      assert Matches(Some(room.players[i]), TokenIs(token));
    } else if ContainsToken(Lift(room.spectators), token, false) {
      var i :| 0 <= i < |room.spectators| && Lift(room.spectators)[i].Some? && Lift(room.spectators)[i].value.token == token;
      assert Matches(Some(room.spectators[i]), TokenIs(token));
    }
  }

  /** A join succeeds iff the room is live and neither the id nor the token is in any live room. */
  lemma JoinAcceptedIff(cfg: Config, reg: Rooms, code: string, token: Option<string>, id: string, version: Value)
    requires reg.Valid()
    ensures JoinRoom(cfg, reg, code, token, id, version).out[0].notice == JoinAccepted <==>
              reg.Live(code) && !Occupied(reg, IdIs(id)) && !Occupied(reg, TokenIs(token))
  {
    AllGamesSearchIsOccupied(reg, id, token);
    if reg.Live(code) {
      AlreadyInRoomIsInRoom(reg.entries[code].value, token, id);
    }
  }

  /**
   * Because server.js compares tokens without the falsy guard, a connection
   * without a token cookie is refused everywhere once any live room holds
   * another member without a token.
   */
  lemma TokenlessJoinerBlocked(cfg: Config, reg: Rooms, code: string, id: string, version: Value, other: string, i: nat)
    requires reg.Valid() && reg.Live(other)
    requires i < |reg.entries[other].value.players| && reg.entries[other].value.players[i].token == None
    ensures JoinRoom(cfg, reg, code, None, id, version).out[0].notice != JoinAccepted
  {
    assert InRoom(reg.entries[other].value, TokenIs(None)) by {
      assert Matches(Some(reg.entries[other].value.players[i]), TokenIs(None));
    }
    JoinAcceptedIff(cfg, reg, code, None, id, version);
  }

  // ---------------------------------------------------------------------
  // Guarded inputs

  /** The caller is a player of live room `code` and is bound to a snake. */
  predicate HasSnake(reg: Rooms, code: string, id: string) {
    && reg.Live(code)
    && PlayerIn(reg.entries[code].value.players, id).Some?
    && PlayerIn(reg.entries[code].value.players, id).value.snake.Some?
  }

  /**
   * `key`: the key becomes the pending input of the caller's snake, only
   * when the caller is a player of a live room bound to a snake.
   */
  function Key(reg: Rooms, code: string, id: string, key: Value): (r: Rooms)
    ensures r.keys == reg.keys && r.entries.Keys == reg.entries.Keys
    ensures forall c :: c in reg.entries && c != code ==> r.entries[c] == reg.entries[c]
    ensures !HasSnake(reg, code, id) ==> r == reg
    ensures reg.Live(code) ==>
              && r.Live(code)
              && r.entries[code].value == reg.entries[code].value.(snakes := r.entries[code].value.snakes)
              && |r.entries[code].value.snakes| == |reg.entries[code].value.snakes|
    ensures reg.Live(code) ==>
              var room := reg.entries[code].value;
              var after := r.entries[code].value.snakes;
              forall i :: 0 <= i < |room.snakes| && i < |after| && after[i] != room.snakes[i] ==>
                (&& after[i] == room.snakes[i].(lastKey := Some(key))
                 && PlayerIn(room.players, id).Some? && PlayerIn(room.players, id).value.snake == Some(i))
    ensures HasSnake(reg, code, id) && PlayerIn(reg.entries[code].value.players, id).value.snake.value < |reg.entries[code].value.snakes| ==>
              var i := PlayerIn(reg.entries[code].value.players, id).value.snake.value;
              r.Live(code) && r.entries[code].value.snakes[i].lastKey == Some(key)
  {
    if reg.Live(code) then
      var room := reg.entries[code].value;
      var p := PlayerIn(room.players, id);
      if p.Some? && p.value.snake.Some? && p.value.snake.value < |room.snakes| then
        var i := p.value.snake.value;
        reg.Put(code, room.(snakes := room.snakes[i := room.snakes[i].(lastKey := Some(key))]))
      else reg
    else reg
  }

  /**
   * Whether a `reset` acts. The handler closes over the room object, not
   * its code, so once the room is reaped it still reads that object's
   * `started`. `reapedStarted` is the reaped object's flag, None when the
   * code never held a room.
   */
  predicate ResetActs(reg: Rooms, code: string, reapedStarted: Option<bool>) {
    if reg.Live(code) then !reg.entries[code].value.started else reapedStarted == Some(false)
  }

  /**
   * `reset`: rerun matchmaking and acknowledge, only while the round of
   * the closed-over room is not started. On a reaped room matchmaking is a
   * no-op, since its code maps to null, but the caller is still answered.
   */
  function Reset(cfg: Config, reg: Rooms, code: string, id: string, reapedStarted: Option<bool>): (r: Step)
    ensures !ResetActs(reg, code, reapedStarted) ==> r == Step(reg, [], [])
    ensures ResetActs(reg, code, reapedStarted) && reg.Live(code) ==>
              && r.reg == GameMatchmaking(cfg, reg, code).reg
              && |r.out| > 0 && r.out[|r.out| - 1] == Emit(ToSocket(id), ResetAck)
    ensures ResetActs(reg, code, reapedStarted) && !reg.Live(code) ==> r == Step(reg, [Emit(ToSocket(id), ResetAck)], [])
    ensures |r.out| > 0 <==> ResetActs(reg, code, reapedStarted)
    ensures !reg.Live(code) ==> r.reg == reg
  {
    if ResetActs(reg, code, reapedStarted) then
      var mm := GameMatchmaking(cfg, reg, code);
      Step(mm.reg, mm.out + [Emit(ToSocket(id), ResetAck)], [])
    else Step(reg, [], [])
  }

  /** `forceStart`: only the player at roster index 0 starts the round; there is no "already started" test. */
  function ForceStart(reg: Rooms, code: string, id: string): (r: Step)
    ensures !(reg.Live(code) && |reg.entries[code].value.players| > 0 && reg.entries[code].value.players[0].id == id) ==>
              r == Step(reg, [], [])
    ensures reg.Live(code) && |reg.entries[code].value.players| > 0 && reg.entries[code].value.players[0].id == id ==>
              r == StartGame(reg, code) && r.reg.entries[code].value.started
  {
    if reg.Live(code) && ContainsId(Lift(reg.entries[code].value.players), id)
       && reg.entries[code].value.players[0].id == id
    then StartGame(reg, code)
    else Step(reg, [], [])
  }

  /**
   * The first `start` of a connection: mark it ready if it is a player,
   * send the engine settings, and run matchmaking.
   */
  function FirstStart(cfg: Config, reg: Rooms, code: string, id: string): (r: Step)
    ensures |r.out| > 0 && r.out[0] == Emit(ToSocket(id), EngineSettings)
    ensures !reg.Live(code) ==> r.reg == reg
    ensures var reg1 := ReadyCaller(reg, code, id);
            && r.reg == GameMatchmaking(cfg, reg1, code).reg
            && r.out == [Emit(ToSocket(id), EngineSettings)] + GameMatchmaking(cfg, reg1, code).out
            && r.calls == []
  {
    var mm := GameMatchmaking(cfg, ReadyCaller(reg, code, id), code);
    Step(mm.reg, [Emit(ToSocket(id), EngineSettings)] + mm.out, [])
  }

  /**
   * `Player.getPlayer(game.players, socket.id).ready = true` when the
   * caller is a player of the live room: only that player's `ready` changes.
   */
  function ReadyCaller(reg: Rooms, code: string, id: string): (r: Rooms)
    ensures r.keys == reg.keys && r.entries.Keys == reg.entries.Keys
    ensures forall c :: c in reg.entries && c != code ==> r.entries[c] == reg.entries[c]
    ensures !(reg.Live(code) && PlayerIn(reg.entries[code].value.players, id).Some?) ==> r == reg
    ensures reg.Live(code) && PlayerIn(reg.entries[code].value.players, id).Some? ==>
              var room := reg.entries[code].value;
              && r.Live(code)
              && r.entries[code].value == room.(players := SetReady(room.players, id))
              && PlayerIn(r.entries[code].value.players, id).value.ready
  {
    if reg.Live(code) && PlayerIn(reg.entries[code].value.players, id).Some? then
      var room := reg.entries[code].value;
      reg.Put(code, room.(players := SetReady(room.players, id)))
    else reg
  }

  /** Set `ready` on the first player with this id, the one `getPlayer` returns. */
  function SetReady(s: seq<Player>, id: string): (r: seq<Player>)
    ensures |r| == |s|
    ensures forall i :: 0 <= i < |s| ==> r[i].id == s[i].id && r[i].token == s[i].token
    ensures forall i :: 0 <= i < |s| && r[i] != s[i] ==> s[i].id == id && r[i] == s[i].(ready := true)
    ensures PlayerIn(s, id).Some? ==> PlayerIn(r, id).Some? && PlayerIn(r, id).value.ready
  {
    match FirstMatchFrom(Lift(s), IdIs(id), 0)
    case None => s
    case Some(i) =>
      var r := s[i := s[i].(ready := true)];
      assert Lift(r)[i] == Some(r[i]);
      assert forall j :: 0 <= j < i ==> Lift(r)[j] == Lift(s)[j];
      assert Matches(Lift(r)[i], IdIs(id));
      r
  }

  // ---------------------------------------------------------------------
  // Listing

  /** `state` of a room summary. */
  datatype RoomState = Started | Starting | SearchingPlayers | NoState

  datatype RoomSummary = RoomSummary(
    code: string, players: nat, spectators: nat, width: int, height: int,
    borderWalls: bool, generateWalls: bool, speed: int, maxPlayers: int, state: RoomState)

  function Summary(cfg: Config, code: string, room: Room): RoomSummary {
    RoomSummary(code, |room.players|, |room.spectators|, room.grid.width, room.grid.height,
                room.grid.borderWalls, room.grid.generateWalls, room.speed, MaxPlayers(cfg, room),
                if room.started then Started
                else if room.timerArmed then Starting
                else if room.searchingPlayers then SearchingPlayers
                else NoState)
  }

  predicate Listed(reg: Rooms, code: string) {
    reg.Live(code) && !reg.entries[code].value.isPrivate
  }

  /**
   * The positions in `keys` of the listed rooms, in increasing order: the
   * `filter` of `getRoomsData` over `Object.keys(games)`.
   */
  function ListedAt(reg: Rooms, keys: seq<string>): (r: seq<nat>)
    ensures forall i :: 0 <= i < |r| ==> r[i] < |keys| && Listed(reg, keys[r[i]])
    ensures forall i, j :: 0 <= i < j < |r| ==> r[i] < r[j]
    ensures forall j :: 0 <= j < |keys| && Listed(reg, keys[j]) ==> j in r
  {
    if |keys| == 0 then []
    else
      var last := |keys| - 1;
      var before := ListedAt(reg, keys[..last]);
      assert forall i :: 0 <= i < |before| ==> keys[before[i]] == keys[..last][before[i]];
      if Listed(reg, keys[last]) then before + [last] else before
  }

  /** A listed room among `keys` has its position among `ListedAt`. */
  lemma ListedAtCoversCode(reg: Rooms, keys: seq<string>, k: string)
    requires k in keys && Listed(reg, k)
    ensures exists i :: 0 <= i < |ListedAt(reg, keys)| && keys[ListedAt(reg, keys)[i]] == k
  {
    var at := ListedAt(reg, keys);
    var j :| 0 <= j < |keys| && keys[j] == k;
    var i :| 0 <= i < |at| && at[i] == j;
    assert keys[at[i]] == k;
  }

  /** Summaries of the listed rooms among `keys`, in key order. */
  function ListFrom(cfg: Config, reg: Rooms, keys: seq<string>): (r: seq<RoomSummary>)
    ensures |r| == |ListedAt(reg, keys)|
    ensures forall i :: 0 <= i < |r| ==>
              && r[i].code == keys[ListedAt(reg, keys)[i]]
              && Listed(reg, r[i].code)
              && r[i] == Summary(cfg, r[i].code, reg.entries[r[i].code].value)
  {
    var at := ListedAt(reg, keys);
    seq(|at|, i requires 0 <= i < |at| => Summary(cfg, keys[at[i]], reg.entries[keys[at[i]]].value))
  }

  /** What `ListFrom` over the registry's own keys lists: each listed room once, in key order, with its summary. */
  lemma ListFromFacts(cfg: Config, reg: Rooms)
    ensures var r := ListFrom(cfg, reg, reg.keys);
            && (forall i :: 0 <= i < |r| ==>
                  && reg.Live(r[i].code)
                  && r[i].speed == reg.entries[r[i].code].value.speed
                  && r[i].maxPlayers == MaxPlayers(cfg, reg.entries[r[i].code].value))
            && (forall code :: code in reg.keys && Listed(reg, code) ==> exists i :: 0 <= i < |r| && r[i].code == code)
            && (reg.Valid() ==> forall i, j :: 0 <= i < j < |r| ==> r[i].code != r[j].code)
  {
    var r := ListFrom(cfg, reg, reg.keys);
    forall code | code in reg.keys && Listed(reg, code)
      ensures exists i :: 0 <= i < |r| && r[i].code == code
    {
      ListedAtCoversCode(reg, reg.keys, code);
    }
  }

  /**
   * `getRoomsData()`: one summary per live, non-private room, in key order,
   * carrying the room's code, sizes, geometry, speed, capacity and state.
   */
  function GetRoomsData(cfg: Config, reg: Rooms): (r: seq<RoomSummary>)
    ensures forall i :: 0 <= i < |r| ==> Listed(reg, r[i].code)
    ensures forall i :: 0 <= i < |r| ==>
              (&& reg.Live(r[i].code)
               && r[i].speed == reg.entries[r[i].code].value.speed
               && r[i].maxPlayers == MaxPlayers(cfg, reg.entries[r[i].code].value))
    ensures forall i :: 0 <= i < |r| ==> reg.Live(r[i].code) && r[i] == Summary(cfg, r[i].code, reg.entries[r[i].code].value)
    ensures forall code :: code in reg.keys && Listed(reg, code) ==> exists i :: 0 <= i < |r| && r[i].code == code
    ensures |r| == |ListedAt(reg, reg.keys)|
    ensures forall i :: 0 <= i < |r| ==> r[i].code == reg.keys[ListedAt(reg, reg.keys)[i]]
    ensures reg.Valid() ==> forall i, j :: 0 <= i < j < |r| ==> r[i].code != r[j].code
  {
    ListFromFacts(cfg, reg);
    ListFrom(cfg, reg, reg.keys)
  }
}
