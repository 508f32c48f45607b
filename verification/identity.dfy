/**
 * The "one room per identity" rule server.js enforces at `createRoom` and
 * `join-room` (server.js:220, 810): no connection id and no identity token
 * occurs twice in a live room, nor in two live rooms. Because the token
 * comparison there is unguarded, "no token" counts as a token value, so at
 * most one tokenless connection is a member anywhere. The lemmas show every
 * server operation keeps the rule.
 */
module Identity {
  import opened Wrappers
  import opened JsValues
  import opened Settings
  import opened Roster
  import opened Registry
  import opened Rooms
  import opened Matchmaking
  import opened Lobby

  function Ids(s: seq<Player>): (r: seq<string>)
    ensures |r| == |s| && forall i :: 0 <= i < |s| ==> r[i] == s[i].id
  {
    seq(|s|, i requires 0 <= i < |s| => s[i].id)
  }

  function Tokens(s: seq<Player>): (r: seq<Option<string>>)
    ensures |r| == |s| && forall i :: 0 <= i < |s| ==> r[i] == s[i].token
  {
    seq(|s|, i requires 0 <= i < |s| => s[i].token)
  }

  /** Connection ids of a room's members, players first. */
  function RoomIds(room: Room): seq<string> {
    Ids(room.players) + Ids(room.spectators)
  }

  /** Identity tokens of a room's members, players first. */
  function RoomTokens(room: Room): seq<Option<string>> {
    Tokens(room.players) + Tokens(room.spectators)
  }

  predicate NoRepeats<T(==)>(x: seq<T>) {
    forall i, j :: 0 <= i < j < |x| ==> x[i] != x[j]
  }

  predicate Disjoint<T(==)>(a: seq<T>, b: seq<T>) {
    forall x :: x in a ==> x !in b
  }

  /** Identities are unique within each live room and across live rooms. */
  ghost predicate OneRoomPerIdentity(reg: Rooms) {
    && (forall code :: reg.Live(code) ==>
          NoRepeats(RoomIds(reg.entries[code].value)) && NoRepeats(RoomTokens(reg.entries[code].value)))
    && (forall c1, c2 :: reg.Live(c1) && reg.Live(c2) && c1 != c2 ==>
          && Disjoint(RoomIds(reg.entries[c1].value), RoomIds(reg.entries[c2].value))
          && Disjoint(RoomTokens(reg.entries[c1].value), RoomTokens(reg.entries[c2].value)))
  }

  /**
   * `after` lists the same codes as `before`, has no room that `before` did
   * not have live, and each of its live rooms has the same members'
   * identities in the same order.
   */
  ghost predicate KeepsIdents(before: Rooms, after: Rooms) {
    && after.keys == before.keys && after.entries.Keys == before.entries.Keys
    && forall code :: after.Live(code) ==>
      && before.Live(code)
      && RoomIds(after.entries[code].value) == RoomIds(before.entries[code].value)
      && RoomTokens(after.entries[code].value) == RoomTokens(before.entries[code].value)
  }

  lemma KeepsIdentsPreserves(before: Rooms, after: Rooms)
    requires before.Valid() && OneRoomPerIdentity(before) && KeepsIdents(before, after)
    ensures after.Valid() && OneRoomPerIdentity(after)
  {
  }

  /** A roster has a member with this id iff its id list holds it. */
  lemma IdListed(s: seq<Player>, id: string)
    ensures (exists i :: 0 <= i < |s| && Matches(Some(s[i]), IdIs(id))) <==> id in Ids(s)
  {
    if id in Ids(s) {
      var i :| 0 <= i < |s| && Ids(s)[i] == id;
      assert Matches(Some(s[i]), IdIs(id));
    }
  }

  /** A roster has a member with this token iff its token list holds it. */
  lemma TokenListed(s: seq<Player>, token: Option<string>)
    ensures (exists i :: 0 <= i < |s| && Matches(Some(s[i]), TokenIs(token))) <==> token in Tokens(s)
  {
    if token in Tokens(s) {
      var i :| 0 <= i < |s| && Tokens(s)[i] == token;
      assert Matches(Some(s[i]), TokenIs(token));
    }
  }

  /** A member with this id or token is in the room iff the room's identities list it. */
  lemma InRoomIffListed(room: Room, id: string, token: Option<string>)
    ensures InRoom(room, IdIs(id)) <==> id in RoomIds(room)
    ensures InRoom(room, TokenIs(token)) <==> token in RoomTokens(room)
  {
    IdListed(room.players, id);
    IdListed(room.spectators, id);
    TokenListed(room.players, token);
    TokenListed(room.spectators, token);
  }

  lemma IdsConcat(a: seq<Player>, b: seq<Player>)
    ensures Ids(a + b) == Ids(a) + Ids(b) && Tokens(a + b) == Tokens(a) + Tokens(b)
  {
  }

  /** Marking members ready keeps their identities. */
  lemma MarkReadyIdents(s: seq<Player>)
    ensures Ids(MarkReady(s)) == Ids(s) && Tokens(MarkReady(s)) == Tokens(s)
  {
  }

  /** The rosters after a promotion list the same connection ids in the same order. */
  lemma PromotionIds(players: seq<Player>, spectators: seq<Player>, k: nat)
    requires k <= |spectators|
    ensures Ids(players + MarkReady(spectators[..k])) + Ids(spectators[k..]) == Ids(players) + Ids(spectators)
  {
    var sp, rest := spectators[..k], spectators[k..];
    calc {
      Ids(players + MarkReady(sp)) + Ids(rest);
      { IdsConcat(players, MarkReady(sp)); MarkReadyIdents(sp); }
      Ids(players) + (Ids(sp) + Ids(rest));
      { IdsConcat(sp, rest); assert sp + rest == spectators; }
      Ids(players) + Ids(spectators);
    }
  }

  /** The rosters after a promotion list the same tokens in the same order. */
  lemma PromotionTokens(players: seq<Player>, spectators: seq<Player>, k: nat)
    requires k <= |spectators|
    ensures Tokens(players + MarkReady(spectators[..k])) + Tokens(spectators[k..]) == Tokens(players) + Tokens(spectators)
  {
    var sp, rest := spectators[..k], spectators[k..];
    calc {
      Tokens(players + MarkReady(sp)) + Tokens(rest);
      { IdsConcat(players, MarkReady(sp)); MarkReadyIdents(sp); }
      Tokens(players) + (Tokens(sp) + Tokens(rest));
      { IdsConcat(sp, rest); assert sp + rest == spectators; }
      Tokens(players) + Tokens(spectators);
    }
  }

  /**
   * Replacing one live room keeps the rule when the new room repeats no
   * identity and shares none with the other live rooms.
   */
  lemma PutPreserves(reg: Rooms, code: string, room: Room)
    requires OneRoomPerIdentity(reg) && reg.Live(code)
    requires NoRepeats(RoomIds(room)) && NoRepeats(RoomTokens(room))
    requires forall c :: reg.Live(c) && c != code ==>
               Disjoint(RoomIds(room), RoomIds(reg.entries[c].value))
               && Disjoint(RoomTokens(room), RoomTokens(reg.entries[c].value))
    ensures OneRoomPerIdentity(reg.Put(code, room))
  {
  }

  /** A value not yet listed can be inserted anywhere without creating a repeat. */
  lemma InsertFresh<T>(a: seq<T>, v: T, b: seq<T>)
    requires NoRepeats(a + b) && v !in a + b
    ensures NoRepeats(a + [v] + b)
  {
    var x := a + [v] + b;
    forall i, j | 0 <= i < j < |x|
      ensures x[i] != x[j]
    {
      var n := |a|;
      if j < n {
        assert x[i] == (a + b)[i] && x[j] == (a + b)[j];
      } else if j == n {
        assert x[i] == (a + b)[i] && x[j] == v;
      } else if i < n {
        assert x[i] == (a + b)[i] && x[j] == (a + b)[j - 1];
      } else if i == n {
        assert x[i] == v && x[j] == (a + b)[j - 1];
      } else {
        assert x[i] == (a + b)[i - 1] && x[j] == (a + b)[j - 1];
      }
    }
  }

  // ---------------------------------------------------------------------
  // Operations that keep every member where it is

  /** Matchmaking moves spectators to the end of the player list, so the member order is unchanged. */
  lemma MatchmakingKeepsIdents(cfg: Config, reg: Rooms, code: string)
    ensures KeepsIdents(reg, GameMatchmaking(cfg, reg, code).reg)
  {
    var after := GameMatchmaking(cfg, reg, code).reg;
    if reg.Live(code) && reg.entries[code].value.searchingPlayers {
      var room := reg.entries[code].value;
      var k := PromotionCount(|room.players|, |room.spectators|, MaxPlayers(cfg, room));
      PromotionIds(room.players, room.spectators, k);
      PromotionTokens(room.players, room.spectators, k);
    }
  }

  lemma StartGameKeepsIdents(reg: Rooms, code: string)
    ensures KeepsIdents(reg, StartGame(reg, code).reg)
  {
    var after := StartGame(reg, code).reg;
    if reg.Live(code) {
      assert Ids(after.entries[code].value.players) == Ids(reg.entries[code].value.players);
      assert Tokens(after.entries[code].value.players) == Tokens(reg.entries[code].value.players);
    }
  }

  lemma FirstStartKeepsIdents(cfg: Config, reg: Rooms, code: string, id: string)
    ensures KeepsIdents(reg, FirstStart(cfg, reg, code, id).reg)
  {
    var reg1 := ReadyCaller(reg, code, id);
    if reg.Live(code) {
      var room := reg.entries[code].value;
      assert Ids(SetReady(room.players, id)) == Ids(room.players);
      assert Tokens(SetReady(room.players, id)) == Tokens(room.players);
    }
    assert KeepsIdents(reg, reg1);
    MatchmakingKeepsIdents(cfg, reg1, code);
  }

  lemma TimerFiredKeepsIdents(reg: Rooms, code: string)
    ensures KeepsIdents(reg, TimerFired(reg, code).reg)
  {
    if reg.Live(code) && reg.entries[code].value.timerArmed {
      StartGameKeepsIdents(reg.Put(code, reg.entries[code].value.(timerArmed := false)), code);
    }
  }

  lemma KeyKeepsIdents(reg: Rooms, code: string, id: string, key: Value)
    ensures KeepsIdents(reg, Lobby.Key(reg, code, id, key))
  {
  }

  // ---------------------------------------------------------------------
  // Operations that add or remove members

  lemma {:induction false} CleanRoomsKeepsIdents(reg: Rooms)
    ensures KeepsIdents(reg, CleanRooms(reg))
  {
    forall code | CleanRooms(reg).Live(code)
      ensures reg.Live(code) && CleanRooms(reg).entries[code] == reg.entries[code]
    {
    }
  }

  /** Adding a room without members under a new code keeps the rule. */
  lemma AddEmptyPreserves(reg: Rooms, code: string, room: Room)
    requires OneRoomPerIdentity(reg) && code !in reg.entries
    requires room.players == [] && room.spectators == []
    ensures OneRoomPerIdentity(reg.Add(code, room))
  {
    assert RoomIds(room) == [] && RoomTokens(room) == [];
  }

  /** A fresh room has no member, so adding one keeps the rule. */
  lemma CreateRoomPreserves(cfg: Config, reg: Rooms, data: CreateData, token: Option<string>, id: string, draws: seq<string>)
    requires GetRandomRoomKey(reg, draws).Some?
    requires OneRoomPerIdentity(reg)
    ensures OneRoomPerIdentity(CreateRoom(cfg, reg, data, token, id, draws).reg)
  {
    var r := CreateRoom(cfg, reg, data, token, id, draws);
    if r.out[0].notice.ProcessOk? {
      var code := r.out[0].notice.code;
      AddEmptyPreserves(reg, code, NewRoom(ValidateSettings(data, BoundsOf(cfg)).value));
    }
  }

  /** A join only lets in an identity that no live room lists. */
  lemma JoinRoomPreserves(cfg: Config, reg: Rooms, code: string, token: Option<string>, id: string, version: Value)
    requires reg.Valid() && OneRoomPerIdentity(reg)
    ensures OneRoomPerIdentity(JoinRoom(cfg, reg, code, token, id, version).reg)
  {
    JoinAcceptedIff(cfg, reg, code, token, id, version);
    if CanJoin(reg, code, token, id) {
      var room := reg.entries[code].value;
      var joined := JoinRoom(cfg, reg, code, token, id, version).reg.entries[code].value;
      InRoomIffListed(room, id, token);
      forall c | reg.Live(c) && c != code
        ensures id !in RoomIds(reg.entries[c].value) && token !in RoomTokens(reg.entries[c].value)
      {
        InRoomIffListed(reg.entries[c].value, id, token);
      }
      var p := Player(token, id, None, false, version);
      if |room.players| >= MaxPlayers(cfg, room) || room.started {
        JoinAsSpectatorIdents(room, p);
      } else {
        JoinAsPlayerIdents(room, p);
      }
      PutPreserves(reg, code, joined);
    }
  }

  /** Joining as a spectator adds the joiner's identity at the end. */
  lemma JoinAsSpectatorIdents(room: Room, p: Player)
    requires NoRepeats(RoomIds(room)) && NoRepeats(RoomTokens(room))
    requires p.id !in RoomIds(room) && p.token !in RoomTokens(room)
    ensures var joined := room.(spectators := room.spectators + [p]);
            && NoRepeats(RoomIds(joined)) && NoRepeats(RoomTokens(joined))
            && (forall x :: x in RoomIds(joined) ==> x in RoomIds(room) || x == p.id)
            && (forall x :: x in RoomTokens(joined) ==> x in RoomTokens(room) || x == p.token)
  {
    var joined := room.(spectators := room.spectators + [p]);
    IdsConcat(room.spectators, [p]);
    assert RoomIds(joined) == RoomIds(room) + [p.id] + [];
    assert RoomTokens(joined) == RoomTokens(room) + [p.token] + [];
    InsertFresh(RoomIds(room), p.id, []);
    InsertFresh(RoomTokens(room), p.token, []);
  }

  /** Joining as a player inserts the joiner's identity between players and spectators. */
  lemma JoinAsPlayerIdents(room: Room, p: Player)
    requires NoRepeats(RoomIds(room)) && NoRepeats(RoomTokens(room))
    requires p.id !in RoomIds(room) && p.token !in RoomTokens(room)
    ensures var joined := room.(players := room.players + [p]);
            && NoRepeats(RoomIds(joined)) && NoRepeats(RoomTokens(joined))
            && (forall x :: x in RoomIds(joined) ==> x in RoomIds(room) || x == p.id)
            && (forall x :: x in RoomTokens(joined) ==> x in RoomTokens(room) || x == p.token)
  {
    var joined := room.(players := room.players + [p]);
    IdsConcat(room.players, [p]);
    assert RoomIds(joined) == Ids(room.players) + [p.id] + Ids(room.spectators);
    assert RoomTokens(joined) == Tokens(room.players) + [p.token] + Tokens(room.spectators);
    InsertFresh(Ids(room.players), p.id, Ids(room.spectators));
    InsertFresh(Tokens(room.players), p.token, Tokens(room.spectators));
  }

  /** Splitting a list without repeats gives two lists without repeats and nothing in common. */
  lemma NoRepeatsSplit<T>(a: seq<T>, b: seq<T>)
    requires NoRepeats(a + b)
    ensures NoRepeats(a) && NoRepeats(b) && Disjoint(a, b)
  {
    forall i, j | 0 <= i < j < |a|
      ensures a[i] != a[j]
    {
      assert a[i] == (a + b)[i] && a[j] == (a + b)[j];
    }
    forall i, j | 0 <= i < j < |b|
      ensures b[i] != b[j]
    {
      assert b[i] == (a + b)[|a| + i] && b[j] == (a + b)[|a| + j];
    }
    forall x | x in a
      ensures x !in b
    {
      var i :| 0 <= i < |a| && a[i] == x;
      if j :| 0 <= j < |b| && b[j] == x {
        assert (a + b)[i] == (a + b)[|a| + j];
      }
    }
  }

  /** Two lists without repeats and nothing in common join into one without repeats. */
  lemma NoRepeatsJoin<T>(a: seq<T>, b: seq<T>)
    requires NoRepeats(a) && NoRepeats(b) && Disjoint(a, b)
    ensures NoRepeats(a + b)
  {
    forall i, j | 0 <= i < j < |a + b|
      ensures (a + b)[i] != (a + b)[j]
    {
      if j < |a| {
        assert (a + b)[i] == a[i] && (a + b)[j] == a[j];
      } else if i < |a| {
        assert (a + b)[i] == a[i] && (a + b)[j] == b[j - |a|];
        assert a[i] in a;
      } else {
        assert (a + b)[i] == b[i - |a|] && (a + b)[j] == b[j - |a|];
      }
    }
  }

  /** Removing a connection from a roster lists no id or token it did not list. */
  lemma WithoutListsNothingNew(s: seq<Player>, id: string)
    ensures forall x :: x in Ids(Without(s, id)) ==> x in Ids(s)
    ensures forall x :: x in Tokens(Without(s, id)) ==> x in Tokens(s)
  {
    var w := Without(s, id);
    WithoutMembers(s, id);
    forall x | x in Ids(w) ensures x in Ids(s) {
      var i :| 0 <= i < |w| && Ids(w)[i] == x;
      var j :| 0 <= j < |s| && s[j] == w[i];
      assert Ids(s)[j] == x;
    }
    forall x | x in Tokens(w) ensures x in Tokens(s) {
      var i :| 0 <= i < |w| && Tokens(w)[i] == x;
      var j :| 0 <= j < |s| && s[j] == w[i];
      assert Tokens(s)[j] == x;
    }
  }

  /** A head that does not repeat in a list keeps not repeating in any sub-collection of it. */
  lemma ConsKeepsNoRepeats<T>(x: T, t: seq<T>, u: seq<T>)
    requires NoRepeats([x] + t) && NoRepeats(u)
    requires forall y :: y in u ==> y in t
    ensures NoRepeats([x] + u)
  {
    NoRepeatsSplit([x], t);
    NoRepeatsJoin([x], u);
  }

  /** Removing a connection from a roster keeps its ids unrepeated. */
  lemma {:induction false} WithoutIds(s: seq<Player>, id: string)
    requires NoRepeats(Ids(s))
    ensures NoRepeats(Ids(Without(s, id)))
    decreases |s|
  {
    if |s| > 0 {
      var rest := s[1..];
      var wr := Without(rest, id);
      assert Ids(s) == [s[0].id] + Ids(rest);
      WithoutIds(rest, id);
      if s[0].id != id {
        WithoutListsNothingNew(rest, id);
        ConsKeepsNoRepeats(s[0].id, Ids(rest), Ids(wr));
        assert Ids(Without(s, id)) == [s[0].id] + Ids(wr);
      } else {
        NoRepeatsSplit([s[0].id], Ids(rest));
        assert Without(s, id) == wr;
      }
    }
  }

  /** Removing a connection from a roster keeps its tokens unrepeated. */
  lemma {:induction false} WithoutTokens(s: seq<Player>, id: string)
    requires NoRepeats(Tokens(s))
    ensures NoRepeats(Tokens(Without(s, id)))
    decreases |s|
  {
    if |s| > 0 {
      var rest := s[1..];
      var wr := Without(rest, id);
      assert Tokens(s) == [s[0].token] + Tokens(rest);
      WithoutTokens(rest, id);
      if s[0].id != id {
        WithoutListsNothingNew(rest, id);
        ConsKeepsNoRepeats(s[0].token, Tokens(rest), Tokens(wr));
        assert Tokens(Without(s, id)) == [s[0].token] + Tokens(wr);
      } else {
        NoRepeatsSplit([s[0].token], Tokens(rest));
        assert Without(s, id) == wr;
      }
    }
  }

  /** The room after a member leaves repeats no identity and lists none it did not list before. */
  lemma LeaveIdents(room: Room, id: string)
    requires NoRepeats(RoomIds(room)) && NoRepeats(RoomTokens(room))
    ensures var left := Leave(room, id);
            && NoRepeats(RoomIds(left)) && NoRepeats(RoomTokens(left))
            && (forall x :: x in RoomIds(left) ==> x in RoomIds(room))
            && (forall x :: x in RoomTokens(left) ==> x in RoomTokens(room))
  {
    var left := Leave(room, id);
    NoRepeatsSplit(Ids(room.players), Ids(room.spectators));
    NoRepeatsSplit(Tokens(room.players), Tokens(room.spectators));
    WithoutIds(room.players, id);
    WithoutIds(room.spectators, id);
    WithoutTokens(room.players, id);
    WithoutTokens(room.spectators, id);
    WithoutListsNothingNew(room.players, id);
    WithoutListsNothingNew(room.spectators, id);
    NoRepeatsJoin(Ids(left.players), Ids(left.spectators));
    NoRepeatsJoin(Tokens(left.players), Tokens(left.spectators));
  }

  /** The identities `s` holds other than `x`, in their order. */
  function Drop(s: seq<string>, x: string): (r: seq<string>)
    ensures forall y :: y in r <==> y in s && y != x
  {
    if |s| == 0 then [] else (if s[0] == x then [] else [s[0]]) + Drop(s[1..], x)
  }

  /** Removing a member from a roster drops exactly its identity from the roster's identities. */
  lemma {:induction false} IdsWithout(s: seq<Player>, id: string)
    ensures Ids(Without(s, id)) == Drop(Ids(s), id)
    decreases |s|
  {
    if |s| > 0 {
      IdsWithout(s[1..], id);
      assert Ids(s)[1..] == Ids(s[1..]);
      if s[0].id != id {
        assert Ids([s[0]] + Without(s[1..], id)) == [s[0].id] + Ids(Without(s[1..], id));
      }
    }
  }

  /**
   * Exit seen from the room, for any leaver and in any phase: when the room
   * survives, its players and its spectators are those it had, minus the
   * leaver, in their order. Matchmaking may move spectators to the players,
   * so the two rosters are stated together, players first.
   */
  lemma ExitKeepsOthersInOrder(cfg: Config, reg: Rooms, code: string, id: string)
    requires reg.Live(code)
    ensures var room := reg.entries[code].value;
            var after := ExitGame(cfg, reg, code, id).reg;
            after.Live(code) ==>
              RoomIds(after.entries[code].value) == Drop(Ids(room.players), id) + Drop(Ids(room.spectators), id)
  {
    var room := reg.entries[code].value;
    var left := Leave(room, id);
    var reg1 := reg.Put(code, left);
    CleanRoomsKeepsIdents(reg1);
    MatchmakingKeepsIdents(cfg, CleanRooms(reg1), code);
    IdsWithout(room.players, id);
    IdsWithout(room.spectators, id);
  }

  /** Exit (and kill, error, disconnect) keeps the rule: it only removes a member and reaps. */
  lemma ExitGamePreserves(cfg: Config, reg: Rooms, code: string, id: string)
    requires OneRoomPerIdentity(reg)
    ensures OneRoomPerIdentity(ExitGame(cfg, reg, code, id).reg)
  {
    var reg1 := if reg.Live(code) then reg.Put(code, Leave(reg.entries[code].value, id)) else reg;
    if reg.Live(code) {
      LeaveIdents(reg.entries[code].value, id);
      PutPreserves(reg, code, Leave(reg.entries[code].value, id));
    }
    var reg2 := CleanRooms(reg1);
    CleanRoomsKeepsIdents(reg1);
    MatchmakingKeepsIdents(cfg, reg2, code);
  }

  // ---------------------------------------------------------------------
  // Every reachable state

  /** The operations of server.js that change the registry. */
  datatype ServerOp =
    | CreateOp(data: CreateData, token: Option<string>, id: string, draws: seq<string>)
    | JoinOp(code: string, token: Option<string>, id: string, version: Value)
    | ExitOp(code: string, id: string)
    | KeyOp(code: string, id: string, key: Value)
    | ResetOp(code: string, id: string, reapedStarted: Option<bool>)
    | ForceStartOp(code: string, id: string)
    | FirstStartOp(code: string, id: string)
    | TimerOp(code: string)
    | StopOp(code: string)

  /** The registry after one operation. A create whose draws are all taken creates nothing. */
  function Apply(cfg: Config, reg: Rooms, op: ServerOp): Rooms {
    match op
    case CreateOp(data, token, id, draws) =>
      if GetRandomRoomKey(reg, draws).Some? then CreateRoom(cfg, reg, data, token, id, draws).reg else reg
    case JoinOp(code, token, id, version) => JoinRoom(cfg, reg, code, token, id, version).reg
    case ExitOp(code, id) => ExitGame(cfg, reg, code, id).reg
    case KeyOp(code, id, key) => Lobby.Key(reg, code, id, key)
    case ResetOp(code, id, reapedStarted) => Lobby.Reset(cfg, reg, code, id, reapedStarted).reg
    case ForceStartOp(code, id) => Lobby.ForceStart(reg, code, id).reg
    case FirstStartOp(code, id) => FirstStart(cfg, reg, code, id).reg
    case TimerOp(code) => TimerFired(reg, code).reg
    case StopOp(code) => OnStop(reg, code).reg
  }

  function Run(cfg: Config, reg: Rooms, ops: seq<ServerOp>): Rooms
    decreases |ops|
  {
    if |ops| == 0 then reg else Run(cfg, Apply(cfg, reg, ops[0]), ops[1..])
  }

  /** The operations that neither add nor remove members keep every identity where it is. */
  lemma ApplyKeepsIdents(cfg: Config, reg: Rooms, op: ServerOp)
    requires !op.CreateOp? && !op.JoinOp? && !op.ExitOp?
    ensures KeepsIdents(reg, Apply(cfg, reg, op))
  {
    match op
    case KeyOp(code, id, key) => KeyKeepsIdents(reg, code, id, key);
    case ResetOp(code, id, _) => MatchmakingKeepsIdents(cfg, reg, code);
    case ForceStartOp(code, id) => StartGameKeepsIdents(reg, code);
    case FirstStartOp(code, id) => FirstStartKeepsIdents(cfg, reg, code, id);
    case TimerOp(code) => TimerFiredKeepsIdents(reg, code);
    case StopOp(code) =>
  }

  /** One operation keeps the registry well formed and the rule in force. */
  lemma ApplyPreserves(cfg: Config, reg: Rooms, op: ServerOp)
    requires reg.Valid() && OneRoomPerIdentity(reg)
    ensures Apply(cfg, reg, op).Valid() && OneRoomPerIdentity(Apply(cfg, reg, op))
  {
    match op
    case CreateOp(data, token, id, draws) =>
      if GetRandomRoomKey(reg, draws).Some? {
        CreateRoomAddsExactlyOne(cfg, reg, data, token, id, draws);
        CreateRoomPreserves(cfg, reg, data, token, id, draws);
      }
    case JoinOp(code, token, id, version) =>
      JoinRoomPreserves(cfg, reg, code, token, id, version);
    case ExitOp(code, id) =>
      ExitGamePreserves(cfg, reg, code, id);
    case _ =>
      ApplyKeepsIdents(cfg, reg, op);
      KeepsIdentsPreserves(reg, Apply(cfg, reg, op));
  }

  /**
   * From the empty registry, any sequence of server operations leaves every
   * connection id and every identity token in at most one live room, once.
   */
  lemma {:induction false} RunPreserves(cfg: Config, reg: Rooms, ops: seq<ServerOp>)
    requires reg.Valid() && OneRoomPerIdentity(reg)
    ensures Run(cfg, reg, ops).Valid() && OneRoomPerIdentity(Run(cfg, reg, ops))
    decreases |ops|
  {
    if |ops| > 0 {
      ApplyPreserves(cfg, reg, ops[0]);
      RunPreserves(cfg, Apply(cfg, reg, ops[0]), ops[1..]);
    }
  }

  lemma ReachableStatesObeyRule(cfg: Config, ops: seq<ServerOp>)
    ensures OneRoomPerIdentity(Run(cfg, Empty(), ops))
  {
    RunPreserves(cfg, Empty(), ops);
  }
}
