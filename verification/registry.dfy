/**
 * The process-wide room registry (`games` in server.js and index.js): a
 * JavaScript object from room code to room, where a reaped room is set to
 * null rather than deleted. `keys` keeps the insertion order that
 * `Object.keys` reports.
 */
module Registry {
  import opened Wrappers

  datatype Registry<R> = Registry(keys: seq<string>, entries: map<string, Option<R>>) {

    /** Keys are listed once each and are exactly the map's domain. */
    ghost predicate Valid() {
      && (forall i, j :: 0 <= i < j < |keys| ==> keys[i] != keys[j])
      && (forall k :: k in entries <==> k in keys)
    }

    /**
     * `games[code] != null` for a code that is an own key of `games`. A code
     * naming a property every object inherits (`"constructor"`, `"toString"`,
     * `"__proto__"`, ...) also passes that test in the source without being a
     * room; such codes are not live here.
     */
    predicate Live(code: string) {
      code in entries && entries[code].Some?
    }

    /** `games[code]`, with missing and tombstoned codes both read as None. */
    function Get(code: string): Option<R> {
      if code in entries then entries[code] else None
    }

    /** The entries in key order (`Object.keys(games).map(k => games[k])`). */
    function Values(): (r: seq<Option<R>>)
      ensures |r| == |keys|
      ensures forall i :: 0 <= i < |keys| ==> r[i] == Get(keys[i])
    {
      seq(|keys|, i requires 0 <= i < |keys| => Get(keys[i]))
    }

    /** Number of non-null entries (`Object.keys(games).filter(k => games[k] != null).length`). */
    function LiveCount(): nat {
      CountLive(Values())
    }

    /** Store a room under a code that has never been used. */
    function Add(code: string, room: R): (r: Registry<R>)
      requires code !in entries
      ensures r.entries == entries[code := Some(room)]
      ensures r.keys == keys + [code]
      ensures Valid() ==> r.Valid()
    {
      Registry(keys + [code], entries[code := Some(room)])
    }

    /** Replace the room stored under an existing code. */
    function Put(code: string, room: R): (r: Registry<R>)
      requires code in entries
      ensures r.keys == keys
      ensures r.entries == entries[code := Some(room)]
      ensures Valid() ==> r.Valid()
    {
      Registry(keys, entries[code := Some(room)])
    }
  }

  function CountLive<R>(s: seq<Option<R>>): (n: nat)
    ensures n <= |s|
    ensures n == 0 <==> forall i :: 0 <= i < |s| ==> s[i].None?
  {
    if |s| == 0 then 0 else CountLive(s[..|s| - 1]) + (if s[|s| - 1].Some? then 1 else 0)
  }

  /** The registry with no room: the server's state at start-up. */
  function Empty<R>(): (r: Registry<R>)
    ensures r.Valid() && r.LiveCount() == 0
  {
    Registry([], map[])
  }

  /**
   * `getRandomRoomKey` (server.js:182-190, index.js:42-50): draw candidate
   * codes until one is not a key of the registry. Tombstoned codes are still
   * keys, so a code is never reused. The random draws are the parameter;
   * None means every draw given was taken.
   */
  function GetRandomRoomKey<R>(reg: Registry<R>, draws: seq<string>): (r: Option<string>)
    ensures r.Some? ==> r.value !in reg.entries && r.value in draws
    ensures r.Some? ==> exists i :: 0 <= i < |draws| && draws[i] == r.value
                                    && forall j :: 0 <= j < i ==> draws[j] in reg.entries
    ensures r.None? <==> forall i :: 0 <= i < |draws| ==> draws[i] in reg.entries
  {
    if |draws| == 0 then None
    else if draws[0] !in reg.entries then Some(draws[0])
    else
      var rest := GetRandomRoomKey(reg, draws[1..]);
      assert forall i :: 1 <= i < |draws| ==> draws[i] == draws[1..][i - 1];
      rest
  }
}
