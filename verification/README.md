# snakeia-server, modelled in Dafny

This project models the room and matchmaking core of the SnakeIA multiplayer
server. Each operation is a pure function over an immutable state:

- the map of rooms (`games`);
- each room's `players` and `spectators` rosters;
- its engine snakes, its matchmaking timer and its started/searching flags.

Every Socket.IO handler becomes a function from the current rooms to a `Step`. A `Step` holds:

- the new rooms;
- the notices emitted, each addressed to a socket or to a room;
- the calls made on the room's game engine.

The model covers:

- **Player lookups** (`Roster`). These are the lookups of `Player.js` and the copy inlined in `server.js`. The two differ only in whether a falsy token is refused, so one definition takes that guard as a parameter.
- **Rooms in the current server** (`Registry`, `Rooms`, `Capacity`, `Settings`, `Lobby`, `Matchmaking`):
  - room creation with its settings validation and its error priority;
  - joining as player or spectator, and the handlers each join installs;
  - leaving;
  - the `cleanRooms` reaper;
  - matchmaking with its start timer;
  - `startGame` and the engine's stop callback;
  - the public room list.
- **Per-join handlers** (`Sessions`). These are the one-shot `start`, `exit`, `kill`, `error` and `disconnect` listeners of a join. A socket that joins several rooms keeps one set of listeners per join. The listeners close over the room object rather than its code, so a room's `started` flag is remembered after the room is reaped.
- **The server-wide identity rule** (`Identity`). No socket id and no token appears twice among live rooms. Every server operation preserves this, so it holds in every state reachable from the empty server.
- **The worker bridge** (`Snapshot`, `Messages`, `Worker`, `Controller`):
  - snake and grid serialisation (`copySnakes`, `copyGrid`, `parseSnakes`);
  - the message format with its `type` field;
  - the worker thread's dispatch;
  - the controller's commands, `init` and mirroring of the worker's snapshots.
- **The legacy server** (`Legacy`, `LegacySessions`, `index.js`): a reduced room model with its own reaper, join and exit rules, and its listeners, which are also installed once per join.

Randomness is a parameter: `GetRandomRoomKey` takes the sequence of codes the
generator would draw. The clock is a parameter too: the timer's start is
`Unset`, `Deadline` or `Zero`, and `TimerFired` is the timeout firing. The game
engine (the external snakeia package) is represented by the calls made on it
(`EngineCall`) and by the fields the bridge reads from it.

## Model

| member | source | states |
|---|---|---|
| Roster.GetPlayer | Player.js:32-40 | finds a player iff some non-empty roster entry has that id, and the entry found carries the id |
| Roster.GetPlayerToken | Player.js:59-68 | with the guard on, a falsy token finds nothing; otherwise it finds a player iff some entry holds exactly that token (the unguarded server.js copy lets a missing token match a tokenless player) |
| Roster.GetPlayerAllGames | Player.js:42-57 | finds a player iff some live room has that id among its players or spectators |
| Roster.GetPlayerAllGamesToken | Player.js:70-86 | a falsy token finds nothing under the guard; otherwise it finds a player iff some live room holds that token, and the player found is that token's match in the first such room in key order |
| Roster.ContainsId | Player.js:88-90 | true exactly when some roster entry has the id |
| Roster.ContainsToken | Player.js:92-94 | false for a falsy token under the guard, otherwise true exactly when some entry has the token |
| Roster.ContainsIdAllGames | Player.js:96-98 | true exactly when some live room has the id in either roster |
| Roster.ContainsTokenAllGames | Player.js:100-102 | false for a falsy token under the guard, otherwise true exactly when some live room has the token |
| Rooms.AllGamesSearchIsOccupied | server.js:84-142 | the all-games searches over the room map agree with "some live room holds this id/token" |
| Registry.GetRandomRoomKey | server.js:182-190 | the chosen code is one of the drawn codes and not already a room; no code is chosen only when every draw collides |
| Capacity.GetMaxPlayers | server.js:196-217 | one fifth of the free cells, rounded, when that lies between 2 and the configured maximum; the maximum when it is above; 2, or the maximum if that is smaller, when it is below |
| Capacity.GeneratedWallsNeverRaiseCapacity | server.js:196-217 | turning on generated walls never increases the room capacity |
| Capacity.BorderWallsNeverRaiseCapacity | server.js:196-217 | turning on border walls never increases the room capacity |
| Capacity.BorderedTwentyByTwenty | server.js:196-217 | a bordered 20x20 grid without generated walls holds min(maximum, 65) players |
| JsValues.StringToNumber | server.js:230-266 | `Number(s)` as `isNaN` and the bound comparisons read it: the empty string is 0, decimal digits read in base 10, a sign needs digits after it, and a `0x`/`0o`/`0b` literal is a number iff digits of its radix follow |
| JsValues.ToNumber | server.js:230-266 | numbers are kept, null is 0, booleans are 0 or 1, undefined is NaN, and strings read as `StringToNumber` |
| JsValues.DecimalRoundTrip | server.js:230-266 | a number's decimal text reads back as that number |
| JsValues.SignedRoundTrip | server.js:230-266 | the decimal text of a number, bare, with `+` or with `-`, reads back as that signed number |
| JsValues.HexTwenty | server.js:230 | `"0x14"` and `"0X14"` read as 20 |
| JsValues.OctalTwenty | server.js:230 | `"0o24"` reads as 20 |
| JsValues.BinaryTwenty | server.js:230 | `"0b10100"` reads as 20 |
| JsValues.DecimalTwenty | server.js:230 | `"20"` and `"+20"` read as 20 |
| JsValues.MalformedNumbers | server.js:230 | a signed radix literal, a lone sign and a radix prefix without digits are NaN |
| Settings.ValidateSettings | server.js:229-271 | settings are accepted iff height, width and speed are numbers within bounds and the flags are present, and accepted settings carry those values |
| Settings.CustomSpeedAlwaysRejected | server.js:260-270 | a request choosing the custom speed is always rejected, because the custom-speed test can never hold |
| Settings.TooNarrowRejected | server.js:236-240 | a grid narrower than the minimum is rejected whatever else the request says |
| Lobby.CreateRoom | server.js:219-320 | exactly one reply to the creator; success iff neither the token nor the socket id is in a live room, the limit is not reached and the settings are valid; on success the new room is added under a fresh code, its grid is initialised (one grid-init call) and nothing else changes; the errors come in the source's order (already created, then the room limit, then invalid settings), each leaving the rooms unchanged with no call |
| Lobby.CreateRoomAddsExactlyOne | server.js:272-313 | a creation changes the rooms iff it is admitted and the settings are valid, and then adds exactly one new, empty room under a fresh code; the creator is not put in it |
| Lobby.CleanRooms | server.js:493-513 | a room is removed iff it has neither players nor spectators; the surviving rooms are untouched |
| Lobby.CleanRoomsIdempotent | server.js:493-513 | reaping twice removes nothing more than reaping once |
| Lobby.CreatedRoomReapedBeforeJoin | server.js:493-513 | a room just created, with nobody in it yet, is removed by the next reap |
| Lobby.ExitGame | server.js:619-642 | the leaver is told it was killed first; the room loses only that socket and is removed iff that empties it; other rooms are reaped as by cleanRooms |
| Lobby.ExitRemovesOnlyCaller | server.js:619-642 | for a player at a single position i, not among the spectators, leaving a room that is not searching and keeps another member: the room survives, the player is removed from exactly that position, the other players keep their order and the spectators are unchanged |
| Lobby.JoinRoom | server.js:805-906 | exactly one reply to the joiner; accepted iff the room is live, the socket and token are not already in a room, and the token owns no other room; errors come in the order not found, already joined, already created; a joiner becomes a spectator when the room is full or started |
| Lobby.JoinAcceptedIff | server.js:805-906 | the join reply is an acceptance exactly when the three admission conditions hold |
| Lobby.TokenlessJoinerBlocked | server.js:101-109 | once a tokenless player sits in a room, every other tokenless joiner is refused there |
| Lobby.Key | server.js:852-856 | a key press by a player bound to a snake makes the pressed key that snake's pending key; it changes only that snake, and nothing at all for anyone else |
| Lobby.Reset | server.js:864-873 | a reset acts iff the room it closed over has not started, read from the live room or, once reaped, from the reaped room's flag; on a live room it reruns matchmaking and then answers the caller; on a reaped room it only answers; otherwise nothing happens |
| Lobby.ForceStart | server.js:883-887 | only the first player of a live room can force the start; anyone else changes nothing |
| Lobby.FirstStart | server.js:823-842 | the first start of a join marks the caller ready, sends it the engine settings, then runs matchmaking on the room, and is reported in that order; a missing room is left alone |
| Lobby.ReadyCaller | server.js:824-826 | only the caller's `ready` flag in that live room changes, and only when the caller is one of its players |
| Lobby.SetReady | server.js:823-842 | only the caller's entry changes, and it becomes ready; ids and tokens stay in place |
| Lobby.GetRoomsData | server.js:145-180 | exactly the public live rooms are listed, each once and in key order, and each entry is that room's summary (player and spectator counts, geometry, speed, capacity, state) |
| Lobby.ListedAt | server.js:147 | the positions of the public live rooms among the keys, increasing, with every such position present |
| Lobby.ListedAtCoversCode | server.js:147 | every public live room among the keys has its position listed |
| Matchmaking.PromoteLoop | server.js:522-528 | the loop moves the first min(spectators, free slots) spectators, in order and marked ready, to the end of the players |
| Matchmaking.Promote | server.js:519-529 | promotion moves exactly PromotionCount spectators and changes nothing else in the room |
| Matchmaking.ArmOrCancel | server.js:533-546 | two or more players arm the timer, a lone player cancels it, an empty room is untouched |
| Matchmaking.SetupSpectators | server.js:605-617 | every spectator of a live room gets exactly one notice |
| Matchmaking.GameMatchmaking | server.js:515-566 | only a live room that is searching for players changes; other rooms are untouched |
| Matchmaking.MatchmakingTimerRule | server.js:533-546 | after matchmaking a room with more than one player has its timer armed, and a room with one player has it cancelled, with the start time set to 0 when a timer was running; a room with no players is not covered |
| Matchmaking.MatchmakingIdempotent | server.js:515-566 | running matchmaking twice in a row gives the same room as running it once |
| Matchmaking.StartGame | server.js:568-603 | starting a live room binds one engine snake per player and tells each player its 1-based slot; other rooms are untouched |
| Matchmaking.TimerFired | server.js:537-540 | when the armed countdown of a live room expires, the room is started with its timer disarmed, keeps its players' number and its spectators, and every player hears its slot; otherwise nothing happens |
| Matchmaking.OnStop | server.js:388-405 | the stop callback tells the room it stopped and returns it to searching, without running matchmaking again |
| Matchmaking.StartStopCycle | server.js:388-405 | a stop right after a start leaves the room unstarted and searching, with the same rosters |
| Sessions.Handle | server.js:823-887 | a disarmed listener does nothing; every leaving event runs exitGame once and disarms itself; pause is acknowledged; start runs the first-start path only once |
| Sessions.HandleReset | server.js:864-873 | a reset runs Lobby.Reset on the binding's room with the flag recorded when that room was reaped, and keeps the binding |
| Sessions.ReapRecords | server.js:493-513 | each room a step reaps is recorded with the started flag it had; earlier records are kept and nothing else is recorded |
| Sessions.ResetAnsweredAfterReap | server.js:864-873 | a reset from a binding whose room was reaped before its round started is still answered, and changes nothing |
| Sessions.DeliverTo | server.js:823-887 | another connection's binding is skipped; the caller's binding runs its handler, keeps its room and connection, is disarmed after a leaving event, and a room the handler reaps has its started flag recorded |
| Sessions.Dispatch | server.js:805-906 | an event reaches only the caller's bindings, and after a leaving event none of them still listens for it |
| Sessions.JoinSession | server.js:805-906 | a binding is added iff the join is accepted, and the rooms change exactly as the join says |
| Sessions.LeavingEventsAgree | server.js:844-881 | exit, kill, error and disconnect have the same effect on the rooms |
| Sessions.LeaveFiresOnce | server.js:844-881 | a second leaving event of the same kind for the same socket changes nothing |
| Sessions.DispatchSilent | server.js:805-906 | an event for a socket with no bindings changes nothing and emits nothing |
| Sessions.SingleJoinExit | server.js:844-881 | for a socket that joined once, a leaving event has exactly the effect of exitGame on its room, and a room it reaps is recorded with its started flag |
| Identity.JoinRoomPreserves | server.js:805-906 | an accepted or refused join keeps every id and token in at most one live room, once |
| Identity.ExitGamePreserves | server.js:619-642 | leaving keeps every id and token in at most one live room, once |
| Identity.ExitKeepsOthersInOrder | server.js:619-642 | for any leaver, player or spectator, in any phase: if the room survives, its members are the former players and then the former spectators, without the leaver and in their order (matchmaking may only move the boundary between the two rosters) |
| Identity.IdsWithout | server.js:631-637 | removing a member from a roster removes exactly its identity from the roster's identities, keeping the order |
| Identity.Drop | server.js:631-637 | the identities other than the given one, all of them and nothing else |
| Identity.CreateRoomPreserves | server.js:219-320 | creating a room keeps the identity rule |
| Identity.MatchmakingKeepsIdents | server.js:515-566 | matchmaking only moves members between rosters of one room, so no identity is added or duplicated |
| Identity.ApplyPreserves | server.js:219-906 | every server operation keeps the room map well formed and keeps the identity rule |
| Identity.RunPreserves | server.js:219-906 | any sequence of server operations keeps the identity rule |
| Identity.ReachableStatesObeyRule | server.js:219-906 | every state reachable from the empty server obeys the identity rule |
| Snapshot.CopySnake | GameEngineMultithreading.js:29-77 | a copy keeps every serialised field, drops the grid reference and the last key, and keeps the AI level text only when it is truthy |
| Snapshot.CopySnakes | GameEngineMultithreading.js:29-77 | a missing list copies to nothing; otherwise the i-th copy is the copy of the i-th non-null entry |
| Snapshot.CopyPresentAt | GameEngineMultithreading.js:33-72 | the i-th copy of the non-null entries is the copy of the i-th non-null entry |
| Snapshot.PresentAt | GameEngineMultithreading.js:33-36 | the positions of the non-null entries, strictly increasing, one per non-null entry |
| Snapshot.PresentAtCoversAll | GameEngineMultithreading.js:33-36 | every non-null entry's position is among them |
| Snapshot.CopyDenseList | GameEngineMultithreading.js:29-77 | a list without holes copies entry for entry |
| Snapshot.CopyGrid | GameEngineMultithreading.js:79-88 | a copied grid keeps its cells and drops both random generators |
| Snapshot.CopyGridIdempotent | GameEngineMultithreading.js:79-88 | copying a copied grid changes nothing |
| Snapshot.ParseSnakes | GameEngineMultithreading.js:90-103 | an explicit grid wins over the engine's; snakes come from the message (a single snake object is wrapped into a list of one), else from the engine, else a single default snake, and all are rebound to the chosen grid |
| Snapshot.SnapshotRoundTrip | GameEngineMultithreading.js:29-103 | parsing a copied snapshot gives one snake per non-null entry, in order, with that entry's copied fields, all bound to the copied grid |
| Snapshot.DenseSnapshotRoundTrip | GameEngineMultithreading.js:29-103 | a list without null entries comes back position by position |
| Messages.KeyCount | GameEngineMultithreadingController.js:35-104 | a message has one key exactly when it carries nothing but its type |
| Messages.EventTypesRoundTrip | GameEngineMultithreadingController.js:35-104 | every engine event's type string maps back to that event and to no other |
| Worker.Notify | GameEngineMultithreading.js:140-300 | each engine callback posts a well-formed message of its own type with its own keys, carrying the snapshot only for the events that send one |
| Worker.NotifyKeyCount | GameEngineMultithreading.js:262-264 | only the score event posts a message with nothing but its type |
| Worker.InitReply | GameEngineMultithreading.js:128-138 | the init reply carries the engine's snakes and grid under type "init" |
| Worker.NthOfType | GameEngineMultithreading.js:365-376 | the n-th snake of a type is found exactly when there are at least n of that type, and it is preceded by n-1 of them |
| Worker.Addressed | GameEngineMultithreading.js:365-376 | a numeric snake number n selects the n-th human snake when there are at least n humans, otherwise the n-th hybrid snake; nothing is selected exactly when the number is not numeric, below 1, or exceeds both counts |
| Worker.OnMessage | GameEngineMultithreading.js:106-402 | the first init creates the engine from the payload and replies; a second init installs the parsed payload, restarts the countdown at 3 and calls init again; a tick unpauses and clears the countdown; every other message before init is ignored; no other message posts anything or replaces the grid |
| Worker.SetGameOverTouchesOneSnake | GameEngineMultithreading.js:377-386 | setGameOver sets the game-over flag of the addressed human or hybrid snake and changes nothing else |
| Worker.ReinitInstallsPayload | GameEngineMultithreading.js:315-321 | a second init replaces the engine's snakes and grid with the posted ones, bound to the posted grid, and restarts the countdown at 3 |
| Worker.ReinitFallsBackOnEngine | GameEngineMultithreading.js:90-99 | a second init without snakes or grid keeps the engine's own, rebound to its grid |
| Worker.IgnoredBeforeInit | GameEngineMultithreading.js:106-402 | a message other than the first init, arriving before any engine exists, does nothing |
| Worker.UpdateEngineHasNoEffect | GameEngineMultithreading.js:331-401 | the "update" message sent by the controller's updateEngine matches no case and leaves the engine unchanged |
| Worker.KeyTouchesOneSnake | GameEngineMultithreading.js:365-376 | a key message changes at most the last key of the addressed snake |
| Worker.FirstInitAdoptsPayload | GameEngineMultithreading.js:110-138 | the first init builds the engine from the payload's grid and snakes and answers with its snapshot |
| Controller.Send | GameEngineMultithreadingController.js:125-171 | a command is posted once to a live worker and never to a discarded one; only kill discards the worker |
| Controller.KilledControllerIsInert | GameEngineMultithreadingController.js:150-155 | after kill, every later command posts nothing |
| Controller.Init | GameEngineMultithreadingController.js:33-123 | init posts one well-formed "init" message with the snapshot and registers the listener, unless the worker was discarded |
| Controller.MergeFields | GameEngineMultithreadingController.js:35-104 | the mirrored fields take every incoming key and the new type, and keep every other earlier key |
| Controller.Mirror | GameEngineMultithreadingController.js:35-104 | an incoming grid replaces the mirrored grid, incoming snakes are rebound to it, and the worker handle is untouched |
| Controller.OnMessage | GameEngineMultithreadingController.js:35-104 | the event raised is the one the type names; a type-only message changes no mirrored state; an inbound kill marks the worker terminated, and throws iff `kill()` has already dropped the worker |
| Controller.SnapshotMirrored | GameEngineMultithreadingController.js:35-104 | after any worker notification carrying a snapshot, the controller holds the engine's grid and snakes |
| Controller.ScoreEventChangesNothing | GameEngineMultithreadingController.js:35-104 | the score event raises its callback and changes no mirrored state |
| Controller.InitReachesWorker | GameEngineMultithreadingController.js:33-123 | the first init the controller posts creates a worker engine holding the controller's snapshot |
| Controller.ReinitKeepsEngine | GameEngineMultithreading.js:315-321 | a second controller init re-initialises the worker's existing engine with the controller's snakes and cleared grid (the engine's own grid if the controller has none) and restarts its countdown |
| Controller.CommandBecomesCall | GameEngineMultithreadingController.js:125-171 | every command posted to a running worker becomes the worker's engine call for it (stop with no argument, finish as stop(true)) |
| Legacy.InPlay | index.js:299-325 | a room has no snake in play exactly when every engine snake's owner is out of the game |
| Legacy.CleanRooms | index.js:299-325 | a legacy room is removed iff none of its engine snakes is still in play; the survivors are untouched |
| Legacy.CreateRoom | index.js:52-133 | a room is created iff the settings are valid under the legacy bounds, and its grid is initialised (one grid-init call); otherwise the reply is an invalid-settings error, nothing changes and nothing is called |
| Legacy.JoinRoom | index.js:345-428 | a join is accepted iff the room is live and the socket is not in it; a missing room is refused; a repeat join gets no reply and changes nothing |
| Legacy.RepeatJoinUnanswered | index.js:345-428 | joining a second time produces no reply at all |
| Legacy.FirstStart | index.js:361-380 | the first start of a member marks it ready, adds its snake to the engine, initialises and starts the engine and sends the settings; on a reaped room only the engine calls and the reply remain |
| Legacy.OrphanEngineStarted | index.js:361-365 | a room reaped before anyone started still has its engine initialised and started by a member's first start |
| Legacy.MarkOut | index.js:382-398 | leaving sets only the caller's own snake game over; the other members and rooms are unchanged, and a non-member changes nothing |
| Legacy.MarkOutSurvivors | index.js:299-325 | once the caller is out, a room survives the reaper iff one of its engine snakes belongs to another member still in play |
| Legacy.Exit | index.js:382-398 | exit and kill tell the caller it was killed and keep exactly the rooms that still have a snake in play without the caller; surviving rooms other than the caller's are untouched |
| Legacy.Error | index.js:410-413 | an error has the effect of an exit on the rooms but sends no reply |
| Legacy.Key | index.js:400-402 | a key press changes only the caller's entry in that room |
| Legacy.GetRoomsData | index.js:13-40 | exactly the public live rooms are listed |
| Legacy.UnstartedRoomReaped | index.js:299-325 | a room with no engine snakes is reaped by anyone's exit |
| Legacy.InPlayRoomSurvives | index.js:299-325 | a room whose engine snake belongs to a member still in play survives another room's exit |
| Legacy.LastExitReaps | index.js:299-325 | the exit of the last member in play removes the room |
| LegacySessions.Handle | index.js:361-413 | a disarmed one-shot handler does nothing; exit and kill run the exit path once, error the error path once; the first start runs the first-start path, later ones are acknowledged |
| LegacySessions.DeliverTo | index.js:346-413 | another connection's binding is skipped; the caller's binding runs its handler, keeps its room and connection, and is disarmed after a leaving event |
| LegacySessions.Dispatch | index.js:346-413 | an event reaches only the caller's bindings, and after a leaving event none of them still listens for it |
| LegacySessions.JoinSession | index.js:346-360 | an accepted join adds one binding for that connection and room; any other join changes nothing beyond its reply |
| LegacySessions.ExitReply | index.js:382-398 | a listening exit or kill handler answers its caller with one kill reply and makes no engine call |
| LegacySessions.TwoJoinsTwoReplies | index.js:382-398 | a connection in two rooms is told twice that it was killed, once by each join's handlers, and no engine call is made |
| LegacySessions.LeaveFiresOnce | index.js:382-413 | a second leaving event of the same kind changes nothing |
| LegacySessions.DispatchSilent | index.js:346-413 | an event no binding of that connection listens to changes nothing |

## Left out

- Transport: `socket.join`/`socket.leave`, the HTTP routes, the admin pages, authentication (JWT tokens, reCAPTCHA) and configuration loading are left out. The model starts from an authenticated socket id and an optional token.
- Time: `Date.now()` and `setTimeout` are left out. The timer's start is a three-valued field and its expiry is the `TimerFired` operation.
- Randomness: the room-code generator is a parameter, the sequence of drawn codes. `Lobby.CreateRoom` and `Legacy.CreateRoom` require that some drawn code is fresh; only `Identity.Apply` treats draws that all collide, by creating no room, where the source would keep drawing.
- The snakeia game engine is an external package and is left out. It appears only as calls (`EngineCall`) and as the fields the bridge copies. `NewGrid` and `NewSnake` stand in for its constructors' defaults.
- Legacy.CleanRooms: a snake counts as out when its owner left (`Legacy.MarkOut`); the engine also sets `gameOver` when a snake dies in play (index.js:309 reads it), and those engine-driven deaths are not modelled.
- Worker.NthOfType: snakeia's `getPlayer(num, type)` is not part of this model. It is assumed to return the num-th snake of that type, counting from 1.
- Worker.OnMessage: the engine's own start, stop, tick and reset behaviour is recorded as a call, not executed. The `try`/`catch` around the engine's `init` and its `errorOccurred` replies are left out.
- JsValues.ToNumber: numbers are integers. Fractional and exponent literals, `Infinity`, surrounding whitespace in strings, and array or object operands (`Number([20])` is 20) are left out and read as NaN here. Decimal strings with an optional sign, `0x`/`0o`/`0b` literals, numbers, booleans and null are converted.
- Settings.ValidateSettings: the source stores the setting as sent (`heightGrid = data.heightGrid`), so a string such as `"0x14"` reaches the grid as a string; the model stores the converted number. `getMaxPlayers` then applies `parseInt` to the stored value (server.js:199-200), which reads `"0o24"` and `"0b10100"` as 0, so such a room's capacity in the source is the smaller of the maximum and 2, while the model computes it from 20.
- Lobby.JoinRoom: a code naming a property every JavaScript object inherits (`"constructor"`, `"toString"`, `"__proto__"`, ...) passes the `game != null` test of server.js:810 and then makes `Player.containsId` read the length of `undefined` (server.js:75), a TypeError nothing catches. The model answers such a code with room-not-found. Codes the server draws never have these names.
- Legacy.JoinRoom: the same inherited-property code passes `games[code] != null` at index.js:347 and then reads `players` of an object without it, which throws; the model answers room-not-found.
- The order of `Object.keys`, which puts integer-like keys first, is left out. Room keys are listed in insertion order.
- Payload values that only pass through (`enablePause`, `enableRetry`, `progressiveSpeed`, `offsetFrame`, usernames) are carried as opaque `Value`s or left out.
- The forwarding of engine events to a room's sockets by `setupRoom` in server.js and index.js is left out, except the stop callback (`OnStop`).
- `Player.getUsername` and `getUsernameSocket` are left out: they only format names.
- Worker.OnMessage: the `setGameOver` case falls through into a second `case "init"`, which is unreachable because the first matching case wins. That branch tests `data.length` of a plain object, which the controller never sends, so it never assigns (a posted object with its own `length` field would take that branch). The model ignores the branch.
- Controller.Init: `init()` after `kill()` throws at `this.worker.on` or `this.worker.postMessage`; the model reports this as `NullWorker` and does not model what the caller does with the exception. Every other command is guarded by `if(this.worker)` and posts nothing.
- Lobby.Reset: `Identity.ApplyPreserves` takes the reaped room's `started` flag as a field of the reset operation rather than tracking it, since it decides only the reply and never the rooms.
- Legacy.GetRoomsData: the list's override of the player count by `game.snake.length` (index.js:34-36) reads a field the engine does not have, so it never applies, and the model omits it.
- Lobby.GetRoomsData: the same dead override at server.js:170-172 is omitted for the same reason.
- Legacy.FirstStart, Legacy.Exit, Legacy.Key: a connection with no player record in a live legacy room never joined it and so has no handler there. The model still defines these operations for it: the first start answers nothing, as the source's property access would throw; exit and key do not model the throw.
- Snapshot.ParseSnakes: the bridge's own messages always carry a list of snakes, so the single-object case is reached only by direct calls.
- Lobby.ExitGame: the game engine of a reaped room is not killed, because the source never kills it either. The room is only tombstoned.
- LegacySessions.TwoJoinsTwoReplies: the one-reply-per-join rule is stated for a connection in two rooms; the statement for any number of joins is not part of the model, because unfolding the exit path once per binding is beyond what the verifier handles cheaply.
