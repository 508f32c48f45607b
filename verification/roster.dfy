/**
 * Player.js: the participant record and the roster searches that back the
 * "one room per identity" checks. The searches are pure; the JavaScript
 * versions are static methods that only read their arguments.
 */
module Roster {
  import opened Wrappers
  import opened JsValues

  /**
   * One connected identity's membership in a room. `token` is the identity
   * cookie (None when the connection sent none), `id` the connection id,
   * `snake` the index of the engine snake bound to this player, if any.
   */
  datatype Player = Player(token: Option<string>, id: string, snake: Option<nat>, ready: bool, version: Value)

  /** What a search looks for: a connection id or an identity token. */
  datatype Criterion = IdIs(id: string) | TokenIs(token: Option<string>)

  /** Both rosters of one room, as arrays whose entries may be null. */
  datatype Rosters = Rosters(players: seq<Option<Player>>, spectators: seq<Option<Player>>)

  /** A non-null roster entry whose field equals the searched value. */
  predicate Matches(entry: Option<Player>, c: Criterion) {
    && entry.Some?
    && match c
       case IdIs(id) => entry.value.id == id
       case TokenIs(t) => entry.value.token == t
  }

  /** A token the JavaScript guard `if(!token)` rejects: absent or empty. */
  predicate Falsy(token: Option<string>) {
    token.None? || token.value == ""
  }

  /** A roster with no null entries, as stored in a room. */
  function Lift(s: seq<Player>): (r: seq<Option<Player>>)
    ensures |r| == |s|
    ensures forall i :: 0 <= i < |s| ==> r[i] == Some(s[i])
  {
    seq(|s|, i requires 0 <= i < |s| => Some(s[i]))
  }

  /** Index of the first entry at or after `from` that matches, scanning forward. */
  function FirstMatchFrom(entries: seq<Option<Player>>, c: Criterion, from: nat): (r: Option<nat>)
    requires from <= |entries|
    ensures r.Some? ==> from <= r.value < |entries| && Matches(entries[r.value], c)
    ensures r.Some? ==> forall j :: from <= j < r.value ==> !Matches(entries[j], c)
    ensures r.None? ==> forall j :: from <= j < |entries| ==> !Matches(entries[j], c)
    decreases |entries| - from
  {
    if from == |entries| then None
    else if Matches(entries[from], c) then Some(from)
    else FirstMatchFrom(entries, c, from + 1)
  }

  /** The first non-null entry matching `c`, or None. */
  function FirstMatch(entries: seq<Option<Player>>, c: Criterion): (r: Option<Player>)
    ensures r.Some? <==> exists i :: 0 <= i < |entries| && Matches(entries[i], c)
    ensures r.Some? ==> exists i :: 0 <= i < |entries| && entries[i] == r && Matches(entries[i], c)
                                    && forall j :: 0 <= j < i ==> !Matches(entries[j], c)
  {
    match FirstMatchFrom(entries, c, 0)
    case Some(i) => entries[i]
    case None => None
  }

  /** `Player.getPlayer` (Player.js:32-40): first non-null entry with this id. */
  function GetPlayer(entries: seq<Option<Player>>, id: string): (r: Option<Player>)
    ensures r.Some? <==> exists i :: 0 <= i < |entries| && entries[i].Some? && entries[i].value.id == id
    ensures r.Some? ==> r.value.id == id
    ensures r.Some? ==> exists i :: 0 <= i < |entries| && entries[i] == r
                                    && forall j :: 0 <= j < i ==> !Matches(entries[j], IdIs(id))
  {
    var r := FirstMatch(entries, IdIs(id));
    assert r.Some? ==> Matches(r, IdIs(id));
    r
  }

  /**
   * `Player.getPlayerToken`. With `guard` (Player.js:59-68) a falsy token
   * finds nothing; without it (the copy inlined in server.js:101-109) the
   * comparison is plain equality, so an absent token finds any member that
   * has no token either.
   */
  function GetPlayerToken(entries: seq<Option<Player>>, token: Option<string>, guard: bool): (r: Option<Player>)
    ensures guard && Falsy(token) ==> r.None?
    ensures !(guard && Falsy(token)) ==>
              (r.Some? <==> exists i :: 0 <= i < |entries| && entries[i].Some? && entries[i].value.token == token)
    ensures r.Some? ==> r.value.token == token
    ensures r.Some? ==> exists i :: 0 <= i < |entries| && entries[i] == r
                                    && forall j :: 0 <= j < i ==> !Matches(entries[j], TokenIs(token))
  {
    if guard && Falsy(token) then None
    else
      var r := FirstMatch(entries, TokenIs(token));
      assert r.Some? ==> Matches(r, TokenIs(token));
      r
  }

  /** One room's answer in an all-rooms search: players are searched before spectators. */
  function SearchRoom(game: Rosters, c: Criterion): (r: Option<Player>)
    ensures r.Some? <==> (exists i :: 0 <= i < |game.players| && Matches(game.players[i], c))
                         || (exists i :: 0 <= i < |game.spectators| && Matches(game.spectators[i], c))
    ensures (exists i :: 0 <= i < |game.players| && Matches(game.players[i], c)) ==> r == FirstMatch(game.players, c)
  {
    var p := FirstMatch(game.players, c);
    var p2 := FirstMatch(game.spectators, c);
    if p.Some? then p else p2
  }

  /** A live room (non-null registry entry) that has a member matching `c`. */
  predicate RoomHas(game: Option<Rosters>, c: Criterion) {
    && game.Some?
    && ((exists i :: 0 <= i < |game.value.players| && Matches(game.value.players[i], c))
        || (exists i :: 0 <= i < |game.value.spectators| && Matches(game.value.spectators[i], c)))
  }

  /** Scan the rooms in key order from position `from`; the first room with a match answers. */
  function SearchGamesFrom(games: seq<Option<Rosters>>, c: Criterion, from: nat): (r: Option<Player>)
    requires from <= |games|
    ensures r.Some? <==> exists k :: from <= k < |games| && RoomHas(games[k], c)
    ensures r.Some? ==> exists k :: from <= k < |games| && RoomHas(games[k], c)
                                    && r == SearchRoom(games[k].value, c)
                                    && forall k' :: from <= k' < k ==> !RoomHas(games[k'], c)
    decreases |games| - from
  {
    if from == |games| then None
    else
      var here := games[from].Some? && SearchRoom(games[from].value, c).Some?;
      assert here <==> RoomHas(games[from], c);
      if here then SearchRoom(games[from].value, c)
      else
        var r := SearchGamesFrom(games, c, from + 1);
        assert (exists k :: from <= k < |games| && RoomHas(games[k], c))
               <==> (exists k :: from + 1 <= k < |games| && RoomHas(games[k], c));
        r
  }

  /**
   * `Player.getPlayerAllGames` (Player.js:42-57): skips tombstoned rooms and
   * returns the match of the first room, in key order, that has the id.
   */
  function GetPlayerAllGames(id: string, games: seq<Option<Rosters>>): (r: Option<Player>)
    ensures r.Some? <==> exists k :: 0 <= k < |games| && RoomHas(games[k], IdIs(id))
    ensures r.Some? ==> exists k :: 0 <= k < |games| && RoomHas(games[k], IdIs(id))
                                    && r == SearchRoom(games[k].value, IdIs(id))
                                    && forall k' :: 0 <= k' < k ==> !RoomHas(games[k'], IdIs(id))
  {
    SearchGamesFrom(games, IdIs(id), 0)
  }

  /** `Player.getPlayerAllGamesToken` (Player.js:70-86), guarded or not as in `GetPlayerToken`. */
  function GetPlayerAllGamesToken(token: Option<string>, games: seq<Option<Rosters>>, guard: bool): (r: Option<Player>)
    ensures guard && Falsy(token) ==> r.None?
    ensures !(guard && Falsy(token)) ==>
              (r.Some? <==> exists k :: 0 <= k < |games| && RoomHas(games[k], TokenIs(token)))
    ensures r.Some? ==> exists k :: 0 <= k < |games| && RoomHas(games[k], TokenIs(token))
                                    && r == SearchRoom(games[k].value, TokenIs(token))
                                    && forall k' :: 0 <= k' < k ==> !RoomHas(games[k'], TokenIs(token))
  {
    if guard && Falsy(token) then None else SearchGamesFrom(games, TokenIs(token), 0)
  }

  /** `Player.containsId` (Player.js:88-90). */
  function ContainsId(entries: seq<Option<Player>>, id: string): (r: bool)
    ensures r <==> exists i :: 0 <= i < |entries| && entries[i].Some? && entries[i].value.id == id
  {
    GetPlayer(entries, id).Some?
  }

  /** `Player.containsToken` (Player.js:92-94). */
  function ContainsToken(entries: seq<Option<Player>>, token: Option<string>, guard: bool): (r: bool)
    ensures guard && Falsy(token) ==> !r
    ensures !(guard && Falsy(token)) ==>
              (r <==> exists i :: 0 <= i < |entries| && entries[i].Some? && entries[i].value.token == token)
  {
    GetPlayerToken(entries, token, guard).Some?
  }

  /** `Player.containsIdAllGames` (Player.js:96-98). */
  function ContainsIdAllGames(id: string, games: seq<Option<Rosters>>): (r: bool)
    ensures r <==> exists k :: 0 <= k < |games| && RoomHas(games[k], IdIs(id))
  {
    GetPlayerAllGames(id, games).Some?
  }

  /** `Player.containsTokenAllGames` (Player.js:100-102). */
  function ContainsTokenAllGames(token: Option<string>, games: seq<Option<Rosters>>, guard: bool): (r: bool)
    ensures guard && Falsy(token) ==> !r
    ensures !(guard && Falsy(token)) ==>
              (r <==> exists k :: 0 <= k < |games| && RoomHas(games[k], TokenIs(token)))
  {
    GetPlayerAllGamesToken(token, games, guard).Some?
  }
}
