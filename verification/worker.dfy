/**
 * The worker thread (GameEngineMultithreading.js:105-402): it owns the one
 * snakeia engine of a room, creates it on the first "init" message, maps
 * the controller's command messages onto engine calls, and posts snapshots
 * when the engine raises events. The engine's own methods are snakeia code
 * and appear only as the calls made, in order.
 */
module Worker {
  import opened Wrappers
  import opened JsValues
  import opened Snapshot
  import opened Messages

  /**
   * The engine's state that the worker itself writes. `countBeforePlay`
   * and `paused` are None until the worker sets them (snakeia's defaults
   * before that).
   */
  datatype Engine = Engine(grid: Grid, snakes: seq<Snake>, countBeforePlay: Option<int>, paused: Option<bool>)

  /** Engine methods the worker calls. `Stop(None)` is `stop()` with no argument. */
  datatype EngineCall = Create | Init | Reset | Start | Stop(finish: Option<bool>) | Pause | Kill | Tick | Exit | ForceStart

  datatype WorkerStep = WorkerStep(game: Option<Engine>, calls: seq<EngineCall>, posts: seq<Message>)

  /** `data.snakes` as `parseSnakes` reads it: both null and undefined are nullish. */
  function SnakesArgOf(f: Field<seq<Snake>>): SnakesArg {
    if f.Present? then List(f.value) else Nullish
  }

  function GridArgOf(f: Field<Grid>): Option<Grid> {
    if f.Present? then Some(f.value) else None
  }

  function ViewOf(game: Option<Engine>): Option<EngineView> {
    if game.Some? then Some(EngineView(game.value.grid, game.value.snakes)) else None
  }

  /** Look up a value in an engine status, undefined when missing. */
  function Status(status: map<string, Value>, k: string): Value {
    if k in status then status[k] else Undefined
  }

  /** The snapshot fields: the copied snakes and the copied grid. */
  function SnakesField(e: Engine): Field<seq<Snake>> {
    Present(CopySnakes(Some(LiftSnakes(e.snakes))))
  }

  function GridField(e: Engine): Field<Grid> {
    Present(CopyGrid(Some(e.grid)).value)
  }

  /** The fields each posted message carries besides `type`, `snakes` and `grid`. */
  function PropKeys(ev: EngineEvent): set<string> {
    var flags := {"confirmReset", "confirmExit", "getInfos", "getInfosGame", "errorOccurred", "engineLoading"};
    match ev
    case OnReset => flags + {"paused", "isReseted", "exited", "numFruit", "ticks", "scoreMax", "gameOver", "gameFinished",
                             "gameMazeWin", "starting", "initialSpeed", "speed", "offsetFrame", "aiStuck", "precAiStuck"}
    case OnStart => flags + {"starting", "countBeforePlay", "paused", "isReseted"}
    case OnPause => flags + {"paused"}
    case OnContinue => flags
    case OnStop => flags + {"paused", "scoreMax", "gameOver", "gameFinished"}
    case OnExit => flags + {"paused", "gameOver", "gameFinished", "exited"}
    case OnKill => flags + {"paused", "gameOver", "killed", "gameFinished"}
    case OnScoreIncreased => {}
    case OnUpdate => {"paused", "isReseted", "exited", "numFruit", "ticks", "scoreMax", "gameOver", "gameFinished",
                      "gameMazeWin", "starting", "initialSpeed", "speed", "countBeforePlay", "offsetFrame",
                      "errorOccurred", "aiStuck", "engineLoading"}
    case OnUpdateCounter => {"paused", "isReseted", "exited", "numFruit", "ticks", "scoreMax", "gameOver", "gameFinished",
                             "gameMazeWin", "starting", "initialSpeed", "speed", "countBeforePlay",
                             "errorOccurred", "engineLoading"}
  }

  /** No posted field is named like the three fields the receiver treats apart. */
  lemma PropKeysNotReserved(ev: EngineEvent)
    ensures forall k :: k in PropKeys(ev) ==> !Reserved(k)
  {
    match ev
    case OnReset =>
    case OnStart =>
    case OnPause =>
    case OnContinue =>
    case OnStop =>
    case OnExit =>
    case OnKill =>
    case OnScoreIncreased =>
    case OnUpdate =>
    case OnUpdateCounter =>
  }

  /** Events whose message carries snapshots of the snakes and the grid. */
  predicate CarriesSnapshot(ev: EngineEvent) {
    ev.OnReset? || ev.OnStart? || ev.OnKill? || ev.OnUpdate? || ev.OnUpdateCounter?
  }

  /** Fields posted as literals rather than read from the engine. */
  function Literal(ev: EngineEvent, k: string): Option<Value> {
    if k in {"confirmReset", "confirmExit", "getInfos", "getInfosGame", "precAiStuck"} then Some(Bool(false))
    else if ev == OnUpdate && k == "offsetFrame" then Some(Num(0))
    else None
  }

  /**
   * The message the worker's listener posts for an engine event.
   * `status` holds the engine's public fields at that moment.
   */
  function Notify(e: Engine, ev: EngineEvent, status: map<string, Value>): (m: Message)
    ensures WellFormed(m) && m.kind == TypeOf(ev)
    ensures m.props.Keys == PropKeys(ev)
    ensures CarriesSnapshot(ev) ==> m.snakes == SnakesField(e) && m.grid == GridField(e)
    ensures !CarriesSnapshot(ev) ==> m.snakes.Absent? && m.grid.Absent?
  {
    var props := map k | k in PropKeys(ev) :: if Literal(ev, k).Some? then Literal(ev, k).value else Status(status, k);
    PropKeysNotReserved(ev);
    if CarriesSnapshot(ev) then Message(TypeOf(ev), SnakesField(e), GridField(e), props)
    else Message(TypeOf(ev), Absent, Absent, props)
  }

  /** Every posted message but "scoreIncreased" has a field besides its type. */
  lemma NotifyKeyCount(e: Engine, ev: EngineEvent, status: map<string, Value>)
    ensures KeyCount(Notify(e, ev, status)) > 1 <==> ev != OnScoreIncreased
  {
    var m := Notify(e, ev, status);
    if ev != OnScoreIncreased {
      assert "errorOccurred" in PropKeys(ev);
      assert "errorOccurred" in m.props;
    }
  }

  /** The reply to the first "init" (128-138). */
  function InitReply(e: Engine, status: map<string, Value>): (m: Message)
    ensures WellFormed(m) && m.kind == "init" && m.snakes == SnakesField(e) && m.grid == GridField(e)
  {
    var keys := {"enablePause", "enableRetry", "progressiveSpeed", "offsetFrame", "errorOccurred", "engineLoading"};
    Message("init", SnakesField(e), GridField(e), map k | k in keys :: Status(status, k))
  }

  /**
   * `game.getPlayer(num, type)` of snakeia: the num-th snake (counting from
   * 1) whose player type is `t`. snakeia is not part of this model; this
   * is its behaviour as the worker relies on it.
   */
  function NthOfType(snakes: seq<Snake>, n: int, t: PlayerType): (r: Option<nat>)
    ensures r.Some? ==> r.value < |snakes| && snakes[r.value].player == t
    ensures r.Some? ==> n >= 1 && CountType(snakes[..r.value], t) == n - 1
    ensures r.None? <==> n < 1 || CountType(snakes, t) < n
    decreases |snakes|
  {
    if |snakes| == 0 || n < 1 then None
    else if snakes[0].player == t && n == 1 then Some(0)
    else
      var rest := NthOfType(snakes[1..], if snakes[0].player == t then n - 1 else n, t);
      assert CountType(snakes, t) == (if snakes[0].player == t then 1 else 0) + CountType(snakes[1..], t);
      if rest.Some? then
        assert snakes[..rest.value + 1] == [snakes[0]] + snakes[1..][..rest.value];
        Some(rest.value + 1)
      else None
  }

  function CountType(snakes: seq<Snake>, t: PlayerType): nat {
    if |snakes| == 0 then 0 else (if snakes[0].player == t then 1 else 0) + CountType(snakes[1..], t)
  }

  /** The snake a "key" or "setGameOver" message addresses: a human snake first, else a hybrid one. */
  function Addressed(snakes: seq<Snake>, numSnake: Value): (r: Option<nat>)
    ensures r.Some? ==> r.value < |snakes| && (snakes[r.value].player == Human || snakes[r.value].player == HybridHumanAi)
    ensures r.Some? ==> numSnake.Num?
    ensures numSnake.Num? && 1 <= numSnake.n <= CountType(snakes, Human) ==>
              && r.Some? && snakes[r.value].player == Human
              && CountType(snakes[..r.value], Human) == numSnake.n - 1
    ensures numSnake.Num? && 1 <= numSnake.n && CountType(snakes, Human) < numSnake.n <= CountType(snakes, HybridHumanAi) ==>
              && r.Some? && snakes[r.value].player == HybridHumanAi
              && CountType(snakes[..r.value], HybridHumanAi) == numSnake.n - 1
    ensures r.None? <==>
              || !numSnake.Num? || numSnake.n < 1
              || (CountType(snakes, Human) < numSnake.n && CountType(snakes, HybridHumanAi) < numSnake.n)
  {
    if !numSnake.Num? then None
    else
      var h := NthOfType(snakes, numSnake.n, Human);
      if h.Some? then h else NthOfType(snakes, numSnake.n, HybridHumanAi)
  }

  /** The worker's "message" handler. */
  function OnMessage(game: Option<Engine>, m: Message, status: map<string, Value>): (r: WorkerStep)
    ensures m.kind == "init" && game.None? ==>
              && r.game.Some? && r.calls == [Create, Init]
              && r.game.value.grid == ParseSnakes(SnakesArgOf(m.snakes), GridArgOf(m.grid), None).0
              && r.game.value.snakes == ParseSnakes(SnakesArgOf(m.snakes), GridArgOf(m.grid), None).1
              && r.posts == [InitReply(r.game.value, status)]
    ensures m.kind == "init" && game.Some? ==>
              var (grid, snakes) := ParseSnakes(SnakesArgOf(m.snakes), GridArgOf(m.grid), ViewOf(game));
              && r.calls == [Init] && r.posts == []
              && r.game == Some(game.value.(grid := grid, snakes := snakes, countBeforePlay := Some(3)))
    ensures m.kind == "tick" && game.Some? ==>
              r == WorkerStep(Some(game.value.(paused := Some(false), countBeforePlay := Some(-1))), [Tick], [])
    ensures m.kind != "init" && game.None? ==> r == WorkerStep(None, [], [])
    ensures m.kind != "init" ==> r.posts == []
    ensures m.kind != "init" && game.Some? ==> r.game.Some? && r.game.value.grid == game.value.grid
                                               && |r.game.value.snakes| == |game.value.snakes|
  {
    if m.kind == "init" then
      var (grid, snakes) := ParseSnakes(SnakesArgOf(m.snakes), GridArgOf(m.grid), ViewOf(game));
      if game.None? then
        var e := Engine(grid, snakes, None, None);
        WorkerStep(Some(e), [Create, Init], [InitReply(e, status)])
      else
        WorkerStep(Some(game.value.(snakes := snakes, grid := grid, countBeforePlay := Some(3))), [Init], [])
    else if game.None? then WorkerStep(None, [], [])
    else
      var e := game.value;
      var t := m.kind;
      if t == "reset" then WorkerStep(game, [Reset], [])
      else if t == "start" then WorkerStep(game, [Start], [])
      else if t == "stop" then WorkerStep(game, [Stop(None)], [])
      else if t == "finish" then WorkerStep(game, [Stop(Some(true))], [])
      else if t == "pause" then WorkerStep(game, [Pause], [])
      else if t == "kill" then WorkerStep(game, [Kill], [])
      else if t == "tick" then WorkerStep(Some(e.(paused := Some(false), countBeforePlay := Some(-1))), [Tick], [])
      else if t == "exit" then WorkerStep(game, [Exit], [])
      else if t == "forceStart" then WorkerStep(game, [ForceStart], [])
      else if t == "key" then
        var target := if KeyCount(m) > 1 then Addressed(e.snakes, Prop(m, "numSnake")) else None;
        if target.Some? then
          WorkerStep(Some(e.(snakes := e.snakes[target.value := e.snakes[target.value].(lastKey := Prop(m, "key"))])), [], [])
        else WorkerStep(game, [], [])
      else if t == "setGameOver" then
        // falls through into `case "init"`, whose `data.length > 1` is never true for an object
        var target := if KeyCount(m) > 1 then Addressed(e.snakes, Prop(m, "numSnake")) else None;
        if target.Some? then
          WorkerStep(Some(e.(snakes := e.snakes[target.value := e.snakes[target.value].(gameOver := true)])), [], [])
        else WorkerStep(game, [], [])
      else WorkerStep(game, [], [])
  }

  /** Before the first "init" every message is dropped. */
  lemma IgnoredBeforeInit(m: Message, status: map<string, Value>)
    requires m.kind != "init"
    ensures OnMessage(None, m, status) == WorkerStep(None, [], [])
  {
  }

  /**
   * `updateEngine(key, data)` posts type "update", which the worker's switch
   * has no case for: the engine is not changed, nothing is called.
   */
  lemma UpdateEngineHasNoEffect(e: Engine, key: Value, data: Value, status: map<string, Value>)
    ensures var m := Message("update", Absent, Absent, map["key" := key, "data" := data]);
            OnMessage(Some(e), m, status) == WorkerStep(Some(e), [], [])
  {
  }

  /**
   * A key reaches only a human or hybrid snake, the one addressed, and
   * changes nothing but that snake's pending key.
   */
  lemma KeyTouchesOneSnake(e: Engine, key: Value, num: Value, status: map<string, Value>)
    ensures var m := Message("key", Absent, Absent, map["key" := key, "numSnake" := num]);
            var after := OnMessage(Some(e), m, status).game.value;
            && after.grid == e.grid && after.countBeforePlay == e.countBeforePlay && after.paused == e.paused
            && |after.snakes| == |e.snakes|
            && forall i :: 0 <= i < |e.snakes| && after.snakes[i] != e.snakes[i] ==>
                 && Addressed(e.snakes, num) == Some(i)
                 && after.snakes[i] == e.snakes[i].(lastKey := key)
  {
  }

  /**
   * "setGameOver" reaches only a human or hybrid snake, the one addressed,
   * and changes nothing but that snake's game-over flag; nothing is called.
   */
  lemma SetGameOverTouchesOneSnake(e: Engine, num: Value, status: map<string, Value>)
    ensures var m := Message("setGameOver", Absent, Absent, map["numSnake" := num]);
            var r := OnMessage(Some(e), m, status);
            && r.calls == [] && r.game.Some?
            && r.game.value.grid == e.grid && r.game.value.countBeforePlay == e.countBeforePlay
            && r.game.value.paused == e.paused
            && |r.game.value.snakes| == |e.snakes|
            && (Addressed(e.snakes, num).Some? ==> r.game.value.snakes[Addressed(e.snakes, num).value].gameOver)
            && forall i :: 0 <= i < |e.snakes| && r.game.value.snakes[i] != e.snakes[i] ==>
                 && Addressed(e.snakes, num) == Some(i)
                 && r.game.value.snakes[i] == e.snakes[i].(gameOver := true)
  {
  }

  /**
   * A second "init" re-initialises the engine it has: the posted snakes and
   * grid replace the engine's, each snake bound to the new grid, the
   * countdown restarts at 3, and only `init` is called again.
   */
  lemma ReinitInstallsPayload(e: Engine, snakes: seq<Snake>, grid: Grid, props: map<string, Value>, status: map<string, Value>)
    ensures var r := OnMessage(Some(e), Message("init", Present(snakes), Present(grid), props), status);
            && r.game == Some(e.(grid := grid, snakes := RehydrateAll(snakes, grid), countBeforePlay := Some(3)))
            && r.calls == [Init] && r.posts == []
  {
  }

  /** A second "init" without snakes or grid keeps the engine's own, bound again to its grid. */
  lemma ReinitFallsBackOnEngine(e: Engine, props: map<string, Value>, status: map<string, Value>)
    ensures var r := OnMessage(Some(e), Message("init", Field.Null, Absent, props), status);
            && r.game == Some(e.(snakes := RehydrateAll(e.snakes, e.grid), countBeforePlay := Some(3)))
            && r.calls == [Init]
  {
  }

  /**
   * The engine a fresh worker builds from an "init" message holds exactly
   * the posted snakes, all bound to the posted grid.
   */
  lemma FirstInitAdoptsPayload(snakes: seq<Snake>, grid: Grid, props: map<string, Value>, status: map<string, Value>)
    ensures var r := OnMessage(None, Message("init", Present(snakes), Present(grid), props), status);
            && r.game == Some(Engine(grid, RehydrateAll(snakes, grid), None, None))
            && r.calls == [Create, Init]
  {
  }
}
