/**
 * The legacy single-file server, index.js: rooms keyed by code, players
 * keyed by connection id, no capacity, no matchmaking and no identity
 * checks. A room lives while its engine has a snake that is not game over.
 */
module Legacy {
  import opened Wrappers
  import opened JsValues
  import opened Capacity
  import opened Settings
  import opened Registry
  import opened Rooms

  /** `game.players[socket.id]`: the player's snake state and readiness. */
  datatype LegacyPlayer = LegacyPlayer(gameOver: bool, lastKey: Value, ready: bool)

  /**
   * A legacy room. `engineSnakes` lists, in push order, the connections
   * whose snake was pushed into the engine by their first "start".
   */
  datatype LegacyRoom = LegacyRoom(
    grid: GridSettings, speed: int, isPrivate: bool,
    players: map<string, LegacyPlayer>, engineSnakes: seq<string>)

  type LegacyRooms = Registry<LegacyRoom>

  datatype LegacyStep = LegacyStep(reg: LegacyRooms, out: seq<Emit>, calls: seq<EngineCall>)

  /** The engine snakes still in play (`players[j] != null && !players[j].gameOver`). */
  function InPlay(room: LegacyRoom): (nb: nat)
    ensures nb <= |room.engineSnakes|
    ensures nb == 0 <==> forall j :: 0 <= j < |room.engineSnakes| ==> Out(room, room.engineSnakes[j])
  {
    InPlayFrom(room, room.engineSnakes)
  }

  /** An engine snake is out when its player is missing or its snake is game over. */
  predicate Out(room: LegacyRoom, id: string) {
    id !in room.players || room.players[id].gameOver
  }

  function InPlayFrom(room: LegacyRoom, ids: seq<string>): (nb: nat)
    ensures nb <= |ids|
    ensures nb == 0 <==> forall j :: 0 <= j < |ids| ==> Out(room, ids[j])
  {
    if |ids| == 0 then 0
    else (if Out(room, ids[0]) then 0 else 1) + InPlayFrom(room, ids[1..])
  }

  /** `cleanRooms()` (299-325): every live room with no snake in play is set to null. */
  function CleanRooms(reg: LegacyRooms): (r: LegacyRooms)
    ensures r.keys == reg.keys && r.entries.Keys == reg.entries.Keys
    ensures forall c :: c in reg.entries ==>
              (r.entries[c].None? <==> reg.entries[c].None? || InPlay(reg.entries[c].value) == 0)
    ensures forall c :: c in reg.entries && r.entries[c].Some? ==> r.entries[c] == reg.entries[c]
  {
    Registry(reg.keys, map c | c in reg.entries ::
      if reg.entries[c].Some? && InPlay(reg.entries[c].value) <= 0 then None else reg.entries[c])
  }

  /**
   * `createRoom(data, socket)` (52-133): no room limit and no identity
   * check, only the fixed bounds of the settings.
   */
  function CreateRoom(reg: LegacyRooms, data: CreateData, id: string, draws: seq<string>): (r: LegacyStep)
    requires GetRandomRoomKey(reg, draws).Some?
    ensures |r.out| == 1 && r.out[0].to == ToSocket(id)
    ensures r.calls == if r.out[0].notice.ProcessOk? then [EngineCall(r.out[0].notice.code, GridInit)] else []
    ensures r.out[0].notice.ProcessOk? <==> ValidateSettings(data, LegacyBounds).Some?
    ensures !r.out[0].notice.ProcessOk? ==> r.out[0].notice == ProcessFailed(InvalidSettings) && r.reg == reg
    ensures r.out[0].notice.ProcessOk? ==>
              var s := ValidateSettings(data, LegacyBounds).value;
              && r.out[0].notice.code !in reg.entries
              && r.reg == reg.Add(r.out[0].notice.code, LegacyRoom(s.grid, s.speed, s.isPrivate, map[], []))
  {
    match ValidateSettings(data, LegacyBounds)
    case Some(s) =>
      var code := GetRandomRoomKey(reg, draws).value;
      LegacyStep(reg.Add(code, LegacyRoom(s.grid, s.speed, s.isPrivate, map[], [])), [Emit(ToSocket(id), ProcessOk(code))], [EngineCall(code, GridInit)])
    case None =>
      LegacyStep(reg, [Emit(ToSocket(id), ProcessFailed(InvalidSettings))], [])
  }

  /**
   * `join-room` (346-427): accepted when the room is live and this
   * connection has no player record there. A repeat join is answered with
   * nothing: the `else if` re-tests `players[socket.id] == null`, which is
   * false on that path.
   */
  function JoinRoom(reg: LegacyRooms, code: string, id: string): (r: LegacyStep)
    ensures r.calls == []
    ensures r.out == [Emit(ToSocket(id), JoinAccepted)] <==> reg.Live(code) && id !in reg.entries[code].value.players
    ensures !reg.Live(code) ==> r == LegacyStep(reg, [Emit(ToSocket(id), JoinRejected(RoomNotFound))], [])
    ensures reg.Live(code) && id in reg.entries[code].value.players ==> r == LegacyStep(reg, [], [])
    ensures reg.Live(code) && id !in reg.entries[code].value.players ==>
              var room := reg.entries[code].value;
              r.reg == reg.Put(code, room.(players := room.players[id := LegacyPlayer(false, Undefined, false)]))
  {
    if reg.Live(code) && id !in reg.entries[code].value.players then
      var room := reg.entries[code].value;
      LegacyStep(reg.Put(code, room.(players := room.players[id := LegacyPlayer(false, Undefined, false)])),
                 [Emit(ToSocket(id), JoinAccepted)], [])
    else if !reg.Live(code) then
      LegacyStep(reg, [Emit(ToSocket(id), JoinRejected(RoomNotFound))], [])
    else
      LegacyStep(reg, [], [])
  }

  /** A connection that joins a room twice gets no answer the second time. */
  lemma RepeatJoinUnanswered(reg: LegacyRooms, code: string, id: string)
    requires reg.Live(code) && id !in reg.entries[code].value.players
    ensures var first := JoinRoom(reg, code, id);
            JoinRoom(first.reg, code, id).out == []
  {
  }

  /**
   * The first "start" of a joined connection (361-380): its player is
   * ready, its snake joins the engine, the engine is initialised and
   * started, and the settings are sent. The handler closes over the room
   * object, so on a reaped room the same happens to the orphaned object:
   * nobody reaches it any more, but its engine is still initialised and
   * started and the caller still answered. A connection with no player
   * record in a live room never joined it and has no such handler; the
   * source's `game.players[socket.id].ready` would throw, so it gets nothing.
   */
  function FirstStart(reg: LegacyRooms, code: string, id: string): (r: LegacyStep)
    ensures reg.Live(code) && id !in reg.entries[code].value.players ==> r == LegacyStep(reg, [], [])
    ensures !reg.Live(code) ==>
              r == LegacyStep(reg, [Emit(ToSocket(id), EngineSettings)], [EngineCall(code, EngineInit), EngineCall(code, EngineStart)])
    ensures reg.Live(code) && id in reg.entries[code].value.players ==>
              var room := reg.entries[code].value;
              && r.reg == reg.Put(code, room.(players := room.players[id := room.players[id].(ready := true)],
                                              engineSnakes := room.engineSnakes + [id]))
              && r.out == [Emit(ToSocket(id), EngineSettings)]
              && r.calls == [EngineCall(code, EngineInit), EngineCall(code, EngineStart)]
  {
    var calls := [EngineCall(code, EngineInit), EngineCall(code, EngineStart)];
    if !reg.Live(code) then LegacyStep(reg, [Emit(ToSocket(id), EngineSettings)], calls)
    else if id in reg.entries[code].value.players then
      var room := reg.entries[code].value;
      var room' := room.(players := room.players[id := room.players[id].(ready := true)],
                         engineSnakes := room.engineSnakes + [id]);
      LegacyStep(reg.Put(code, room'), [Emit(ToSocket(id), EngineSettings)], calls)
    else LegacyStep(reg, [], [])
  }

  /**
   * A member's first start in a room that was reaped before anyone started
   * still initialises and starts that room's engine, which then runs with
   * nobody listed and nothing to reap it.
   */
  lemma OrphanEngineStarted(reg: LegacyRooms, code: string, other: string, id: string)
    requires reg.Live(code) && reg.entries[code].value.engineSnakes == []
    ensures var reaped := Exit(reg, other, id).reg;
            && reaped.entries[code].None?
            && FirstStart(reaped, code, id).calls == [EngineCall(code, EngineInit), EngineCall(code, EngineStart)]
  {
    UnstartedRoomReaped(reg, code, other, id);
  }

  /** Set the caller's snake game over. */
  function MarkOut(reg: LegacyRooms, code: string, id: string): (r: LegacyRooms)
    ensures r.keys == reg.keys && r.entries.Keys == reg.entries.Keys
    ensures forall c :: c in reg.entries && c != code ==> r.entries[c] == reg.entries[c]
    ensures reg.Live(code) && id in reg.entries[code].value.players ==>
              var room := reg.entries[code].value;
              && r.Live(code)
              && r.entries[code].value.players.Keys == room.players.Keys
              && r.entries[code].value.players[id].gameOver
              && (forall p :: p in room.players && p != id ==> r.entries[code].value.players[p] == room.players[p])
              && r.entries[code].value == room.(players := r.entries[code].value.players)
    ensures !(reg.Live(code) && id in reg.entries[code].value.players) ==> r == reg
  {
    if reg.Live(code) && id in reg.entries[code].value.players then
      var room := reg.entries[code].value;
      reg.Put(code, room.(players := room.players[id := room.players[id].(gameOver := true)]))
    else reg
  }

  /**
   * Room `c` still has a snake in play once connection `id` is out of room
   * `code`: some engine snake's owner is a member whose snake is not game
   * over, and is not the leaver.
   */
  predicate InPlayWithout(reg: LegacyRooms, code: string, id: string, c: string) {
    && reg.Live(c)
    && exists j :: 0 <= j < |reg.entries[c].value.engineSnakes|
                   && !Out(reg.entries[c].value, reg.entries[c].value.engineSnakes[j])
                   && !(c == code && reg.entries[c].value.engineSnakes[j] == id)
  }

  /** After the caller is marked out of `code`, a room survives the reaper iff it keeps a snake in play. */
  lemma MarkOutSurvivors(reg: LegacyRooms, code: string, id: string, c: string)
    requires c in reg.entries
    ensures CleanRooms(MarkOut(reg, code, id)).Live(c) <==> InPlayWithout(reg, code, id, c)
  {
    var mo := MarkOut(reg, code, id);
    if reg.Live(c) {
      var room := reg.entries[c].value;
      var room' := mo.entries[c].value;
      assert room'.engineSnakes == room.engineSnakes;
      forall s | s in room.engineSnakes
        ensures Out(room', s) <==> Out(room, s) || (c == code && s == id)
      {
      }
    }
  }

  /**
   * "exit" and "kill" (382-398): the caller is told it was killed, its
   * snake is game over, and exactly the rooms left without a snake in play
   * are reaped.
   */
  function Exit(reg: LegacyRooms, code: string, id: string): (r: LegacyStep)
    ensures r.out == [Emit(ToSocket(id), Killed)] && r.calls == []
    ensures r.reg.keys == reg.keys && r.reg.entries.Keys == reg.entries.Keys
    ensures forall c :: c in reg.entries ==> (r.reg.Live(c) <==> InPlayWithout(reg, code, id, c))
    ensures forall c :: c in reg.entries && c != code && r.reg.Live(c) ==> r.reg.entries[c] == reg.entries[c]
  {
    forall c | c in reg.entries
      ensures CleanRooms(MarkOut(reg, code, id)).Live(c) <==> InPlayWithout(reg, code, id, c)
    {
      MarkOutSurvivors(reg, code, id, c);
    }
    LegacyStep(CleanRooms(MarkOut(reg, code, id)), [Emit(ToSocket(id), Killed)], [])
  }

  /** "error" (410-413): the same as exit, without a reply. */
  function Error(reg: LegacyRooms, code: string, id: string): (r: LegacyStep)
    ensures r.out == [] && r.calls == []
    ensures r.reg == Exit(reg, code, id).reg
  {
    LegacyStep(CleanRooms(MarkOut(reg, code, id)), [], [])
  }

  /** "key" (400-402): the key becomes the caller's pending input. */
  function Key(reg: LegacyRooms, code: string, id: string, key: Value): (r: LegacyRooms)
    ensures reg.Live(code) && id in reg.entries[code].value.players ==>
              && r.Live(code) && id in r.entries[code].value.players
              && r.entries[code].value.players[id].lastKey == key
    ensures !(reg.Live(code) && id in reg.entries[code].value.players) ==> r == reg
    ensures r.keys == reg.keys && r.entries.Keys == reg.entries.Keys
    ensures forall c :: c in reg.entries && c != code ==> r.entries[c] == reg.entries[c]
  {
    if reg.Live(code) && id in reg.entries[code].value.players then
      var room := reg.entries[code].value;
      reg.Put(code, room.(players := room.players[id := room.players[id].(lastKey := key)]))
    else reg
  }

  /** A room summary of `getRoomsData` (13-40). */
  datatype LegacySummary = LegacySummary(code: string, players: nat, width: int, height: int,
                                         borderWalls: bool, generateWalls: bool, speed: int)

  predicate Listed(reg: LegacyRooms, code: string) {
    reg.Live(code) && !reg.entries[code].value.isPrivate
  }

  function Summarise(code: string, room: LegacyRoom): LegacySummary {
    LegacySummary(code, |room.players.Keys|, room.grid.width, room.grid.height,
                  room.grid.borderWalls, room.grid.generateWalls, room.speed)
  }

  function ListFrom(reg: LegacyRooms, keys: seq<string>): (r: seq<LegacySummary>)
    ensures forall i :: 0 <= i < |r| ==>
              (r[i].code in keys && Listed(reg, r[i].code) && r[i] == Summarise(r[i].code, reg.entries[r[i].code].value))
    ensures forall k :: k in keys && Listed(reg, k) ==> exists i :: 0 <= i < |r| && r[i].code == k
  {
    if |keys| == 0 then []
    else
      var rest := ListFrom(reg, keys[1..]);
      assert forall k :: k in keys[1..] ==> k in keys;
      if Listed(reg, keys[0]) then
        var r := [Summarise(keys[0], reg.entries[keys[0]].value)] + rest;
        assert forall i :: 0 <= i < |rest| ==> r[i + 1] == rest[i];
        assert forall k :: k in keys && Listed(reg, k) ==> exists i :: 0 <= i < |r| && r[i].code == k by {
          forall k | k in keys && Listed(reg, k) ensures exists i :: 0 <= i < |r| && r[i].code == k {
            if k == keys[0] {
              assert r[0].code == k;
            } else {
              assert k in keys[1..];
              var j :| 0 <= j < |rest| && rest[j].code == k;
              assert r[j + 1].code == k;
            }
          }
        }
        r
      else
        assert forall k :: k in keys && Listed(reg, k) ==> k in keys[1..];
        rest
  }

  /**
   * `getRoomsData()`: one summary per live public room, in key order. The
   * player count is the number of player records, departed players
   * included; the engine has no `snake` field, so the override at 34-36
   * never applies.
   */
  function GetRoomsData(reg: LegacyRooms): (r: seq<LegacySummary>)
    ensures forall i :: 0 <= i < |r| ==>
              (&& Listed(reg, r[i].code)
               && r[i].players == |reg.entries[r[i].code].value.players.Keys|
               && r[i].speed == reg.entries[r[i].code].value.speed)
    ensures forall code :: code in reg.keys && Listed(reg, code) ==> exists i :: 0 <= i < |r| && r[i].code == code
  {
    ListFrom(reg, reg.keys)
  }

  /**
   * A room nobody has started a round in has no engine snake, so the next
   * reap anywhere, even another room's exit, removes it, members or not.
   */
  lemma UnstartedRoomReaped(reg: LegacyRooms, code: string, other: string, id: string)
    requires reg.Live(code) && reg.entries[code].value.engineSnakes == []
    ensures Exit(reg, other, id).reg.entries[code].None?
  {
  }

  /** A room keeps living across any exit while one of its engine snakes is still in play after it. */
  lemma {:induction false} InPlayRoomSurvives(reg: LegacyRooms, code: string, other: string, id: string, j: nat)
    requires reg.Live(code) && j < |reg.entries[code].value.engineSnakes|
    requires var s := reg.entries[code].value.engineSnakes[j];
             s in reg.entries[code].value.players && !reg.entries[code].value.players[s].gameOver
             && (other == code ==> s != id)
    ensures Exit(reg, other, id).reg.Live(code)
  {
    var marked := MarkOut(reg, other, id);
    var room := marked.entries[code].value;
    var s := reg.entries[code].value.engineSnakes[j];
    assert room.engineSnakes[j] == s && !Out(room, s);
  }

  /**
   * Exits close rooms: once every connection whose snake is in the engine
   * has exited, the room is gone.
   */
  lemma LastExitReaps(reg: LegacyRooms, code: string, id: string)
    requires reg.Live(code)
    requires forall j :: 0 <= j < |reg.entries[code].value.engineSnakes| ==>
               var s := reg.entries[code].value.engineSnakes[j];
               s == id || Out(reg.entries[code].value, s)
    ensures Exit(reg, code, id).reg.entries[code].None?
  {
    var marked := MarkOut(reg, code, id);
    var room := marked.entries[code].value;
    forall j | 0 <= j < |room.engineSnakes|
      ensures Out(room, room.engineSnakes[j])
    {
    }
  }
}
