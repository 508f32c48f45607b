/**
 * The main-thread side of a room's engine
 * (GameEngineMultithreadingController.js): a stand-in engine that forwards
 * every command to the worker thread and mirrors the worker's snapshots.
 */
module Controller {
  import opened Wrappers
  import opened JsValues
  import opened Snapshot
  import opened Messages
  import Worker

  /**
   * `this.worker`: a running worker, one that was terminated but is still
   * referenced (truthy), or null after `kill()`.
   */
  datatype Handle = Running | Terminated | Gone

  /**
   * The controller's own state: the worker handle, whether the message
   * listener is installed, the mirrored grid and snakes, and every other
   * field a worker message copied onto the controller.
   */
  datatype Ctrl = Ctrl(worker: Handle, eventsInit: bool, grid: Option<Grid>, snakes: seq<Snake>, props: map<string, Value>)

  /** The constructor: a new worker, no listener yet. */
  function New(grid: Option<Grid>, snakes: seq<Snake>, props: map<string, Value>): (c: Ctrl)
    ensures c.worker == Running && !c.eventsInit
  {
    Ctrl(Running, false, grid, snakes, props)
  }

  /** The engine methods the controller overrides. */
  datatype Command =
    | ResetCmd | StartCmd | StopCmd(finish: Value) | FinishCmd(finish: Value) | PauseCmd | KillCmd
    | TickCmd | ExitCmd | KeyCmd(key: Value, numSnake: Value) | ForceStartCmd | UpdateEngineCmd(key: Value, data: Value)

  /** The message each command posts (125-171). */
  function CommandMessage(cmd: Command): (m: Message)
    ensures WellFormed(m)
  {
    match cmd
    case ResetCmd => Bare("reset")
    case StartCmd => Bare("start")
    case StopCmd(f) => Bare(if Truthy(f) then "finish" else "stop")
    case FinishCmd(f) => Bare(if Truthy(f) then "finish" else "stop")
    case PauseCmd => Bare("pause")
    case KillCmd => Bare("kill")
    case TickCmd => Bare("tick")
    case ExitCmd => Bare("exit")
    case KeyCmd(k, n) => Message("key", Absent, Absent, map["key" := k, "numSnake" := n])
    case ForceStartCmd => Bare("forceStart")
    case UpdateEngineCmd(k, d) => Message("update", Absent, Absent, map["key" := k, "data" := d])
  }

  /**
   * A command: posted only while `this.worker` is truthy. `kill()` also
   * terminates the worker and drops the reference.
   */
  function Send(c: Ctrl, cmd: Command): (r: (Ctrl, seq<Message>))
    ensures c.worker == Gone ==> r == (c, [])
    ensures c.worker != Gone ==> r.1 == [CommandMessage(cmd)]
    ensures cmd.KillCmd? ==> r.0 == c.(worker := Gone)
    ensures !cmd.KillCmd? ==> r.0 == c
  {
    if c.worker == Gone then (c, [])
    else if cmd.KillCmd? then (c.(worker := Gone), [CommandMessage(cmd)])
    else (c, [CommandMessage(cmd)])
  }

  /** After `kill()` the controller is inert: no command posts anything or changes it. */
  lemma KilledControllerIsInert(c: Ctrl, cmd: Command)
    ensures var (k, _) := Send(c, KillCmd);
            Send(k, cmd) == (k, [])
  {
  }

  /** What `init()` can end in: the message posted, or the TypeError of a null worker. */
  datatype InitOutcome = Posted(c: Ctrl, m: Message) | NullWorker(c: Ctrl)

  /**
   * `init()` (33-123): install the listener once, clear the grid's random
   * generators, post "init" with the grid, the snakes and the engine
   * settings. With the worker gone `this.worker.on` or
   * `this.worker.postMessage` throws.
   */
  function Init(c: Ctrl): (r: InitOutcome)
    ensures c.worker == Gone ==> r.NullWorker?
    ensures c.worker != Gone ==> r.Posted? && r.c.eventsInit && r.c.worker == c.worker && r.c.snakes == c.snakes
    ensures r.Posted? ==> r.c.grid == CopyGrid(c.grid) && r.m.kind == "init" && WellFormed(r.m)
    ensures r.Posted? ==>
              && r.m.snakes == Present(c.snakes)
              && r.m.grid == (if c.grid.Some? then Present(CopyGrid(c.grid).value) else Field.Null)
  {
    if c.worker == Gone then
      NullWorker(if c.eventsInit then c.(grid := CopyGrid(c.grid)) else c)
    else
      var cleared := c.(eventsInit := true, grid := CopyGrid(c.grid));
      var settings := map k | k in {"speed", "enablePause", "enableRetry", "progressiveSpeed"} ::
                        if k in c.props then c.props[k] else Undefined;
      var g := if cleared.grid.Some? then Present(cleared.grid.value) else Field.Null;
      Posted(cleared, Message("init", Present(c.snakes), g, settings))
  }

  /** Bind every mirrored snake to the mirrored grid (`data.snakes[i].grid = grid`). */
  function BindAll(snakes: seq<Snake>, grid: Option<Grid>): (r: seq<Snake>)
    ensures |r| == |snakes| && forall i :: 0 <= i < |r| ==> r[i] == snakes[i].(grid := grid)
  {
    seq(|snakes|, i requires 0 <= i < |snakes| => snakes[i].(grid := grid))
  }

  /** `this[k] = data[k]` for every field but `snakes` and `grid`. */
  function MergeFields(props: map<string, Value>, m: Message): (r: map<string, Value>)
    requires WellFormed(m)
    ensures forall k :: k in m.props ==> k in r && r[k] == m.props[k]
    ensures "type" in r && r["type"] == Str(m.kind)
    ensures forall k :: k in r ==> k in props || k in m.props || k == "type"
    ensures forall k :: k in props && k !in m.props && k != "type" ==> k in r && r[k] == props[k]
  {
    props + map["type" := Str(m.kind)] + m.props
  }

  /** The mirroring half of the listener, for a message with more than its type. */
  function Mirror(c: Ctrl, m: Message): (r: Ctrl)
    requires WellFormed(m)
    ensures r.grid == (if m.grid.Present? then Some(m.grid.value) else c.grid)
    ensures r.snakes == (if m.snakes.Present? then BindAll(m.snakes.value, r.grid) else c.snakes)
    ensures r.props == MergeFields(c.props, m)
    ensures r.worker == c.worker && r.eventsInit == c.eventsInit
  {
    var grid := if m.grid.Present? then Some(m.grid.value) else c.grid;
    var snakes := if m.snakes.Present? then BindAll(m.snakes.value, grid) else c.snakes;
    c.(grid := grid, snakes := snakes, props := MergeFields(c.props, m))
  }

  /**
   * What the listener ends in: the controller afterwards, the event it
   * re-raised, and whether it threw. An inbound "kill" after `kill()` has
   * dropped the worker calls `terminate` on null and throws after raising
   * the event.
   */
  datatype Delivery = Delivery(c: Ctrl, raised: Option<EngineEvent>, threw: bool)

  /**
   * The listener (35-104). A message with more than its type is mirrored
   * first: a truthy grid replaces the grid, a snake list replaces the
   * snakes, each bound to the grid now held, and every other field,
   * `type` included, is copied onto the controller. Then the type is
   * re-raised as an engine event; "kill" also terminates the worker.
   */
  function OnMessage(c: Ctrl, m: Message): (r: Delivery)
    requires WellFormed(m)
    ensures r.raised == EventOf(m.kind)
    ensures KeyCount(m) == 1 ==> r.c == c.(worker := r.c.worker)
    ensures KeyCount(m) > 1 ==> r.c == Mirror(c, m).(worker := r.c.worker)
    ensures r.c.worker == (if m.kind == "kill" && c.worker != Gone then Terminated else c.worker)
    ensures r.threw <==> m.kind == "kill" && c.worker == Gone
  {
    var mirrored := if KeyCount(m) > 1 then Mirror(c, m) else c;
    if m.kind == "kill" then
      if c.worker == Gone then Delivery(mirrored, EventOf(m.kind), true)
      else Delivery(mirrored.(worker := Terminated), EventOf(m.kind), false)
    else Delivery(mirrored, EventOf(m.kind), false)
  }

  /**
   * A snapshot the worker posts for an engine event reaches the main
   * thread intact: the controller then mirrors the engine's grid (its
   * random generators cleared) and one snake per engine snake, each with
   * the engine snake's copied fields and bound to that grid, and re-raises
   * the same event.
   */
  lemma SnapshotMirrored(c: Ctrl, e: Worker.Engine, ev: EngineEvent, status: map<string, Value>)
    requires Worker.CarriesSnapshot(ev)
    ensures var d := OnMessage(c, Worker.Notify(e, ev, status));
            var c' := d.c;
            && d.raised == Some(ev)
            && c'.grid == Some(e.grid.(rngGrid := None, rngGame := None))
            && |c'.snakes| == |e.snakes|
            && forall i :: 0 <= i < |e.snakes| ==> SameCopiedFields(c'.snakes[i], e.snakes[i]) && c'.snakes[i].grid == c'.grid
  {
    var m := Worker.Notify(e, ev, status);
    EventTypesRoundTrip(ev, TypeOf(ev));
    MirrorOfSnapshot(c, e, m);
  }

  /** Mirroring a message that holds an engine's snapshots. */
  lemma MirrorOfSnapshot(c: Ctrl, e: Worker.Engine, m: Message)
    requires WellFormed(m) && m.snakes == Worker.SnakesField(e) && m.grid == Worker.GridField(e)
    ensures var c' := Mirror(c, m);
            && c'.grid == Some(e.grid.(rngGrid := None, rngGame := None))
            && |c'.snakes| == |e.snakes|
            && forall i :: 0 <= i < |e.snakes| ==> SameCopiedFields(c'.snakes[i], e.snakes[i]) && c'.snakes[i].grid == c'.grid
  {
    CopyDenseList(e.snakes);
  }

  /** "scoreIncreased" carries nothing: the controller only re-raises it. */
  lemma ScoreEventChangesNothing(c: Ctrl, e: Worker.Engine, status: map<string, Value>)
    ensures OnMessage(c, Worker.Notify(e, OnScoreIncreased, status)) == Delivery(c, Some(OnScoreIncreased), false)
  {
    var m := Worker.Notify(e, OnScoreIncreased, status);
    assert m.props.Keys == {};
    assert m.props == map[];
    assert KeyCount(m) == 1;
    EventTypesRoundTrip(OnScoreIncreased, m.kind);
  }

  /**
   * A controller's first `init()` reaches a fresh worker whole: the engine
   * it creates holds the controller's snakes, each bound to the controller's
   * grid with its random generators cleared (or a fresh grid if it had none).
   */
  lemma InitReachesWorker(c: Ctrl, status: map<string, Value>)
    requires c.worker == Running
    ensures var r := Init(c);
            var g := if c.grid.Some? then c.grid.value.(rngGrid := None, rngGame := None) else NewGrid;
            var w := Worker.OnMessage(None, r.m, status);
            && w.game == Some(Worker.Engine(g, RehydrateAll(c.snakes, g), None, None))
            && w.calls == [Worker.Create, Worker.Init]
  {
  }

  /**
   * A second `init()` does not create a second engine: the worker
   * re-initialises the one it has with the controller's snakes, bound to
   * the controller's grid with its generators cleared (the engine's own
   * grid if the controller has none), and restarts the countdown at 3.
   */
  lemma ReinitKeepsEngine(c: Ctrl, e: Worker.Engine, status: map<string, Value>)
    requires c.worker == Running
    ensures var w := Worker.OnMessage(Some(e), Init(c).m, status);
            var g := if c.grid.Some? then c.grid.value.(rngGrid := None, rngGame := None) else e.grid;
            && w.calls == [Worker.Init] && w.posts == []
            && w.game == Some(e.(grid := g, snakes := RehydrateAll(c.snakes, g), countBeforePlay := Some(3)))
  {
  }

  /** The engine method each command is meant to run in the worker. */
  function IntendedCall(cmd: Command): Option<Worker.EngineCall> {
    match cmd
    case ResetCmd => Some(Worker.Reset)
    case StartCmd => Some(Worker.Start)
    case StopCmd(f) => Some(if Truthy(f) then Worker.Stop(Some(true)) else Worker.Stop(None))
    case FinishCmd(f) => Some(if Truthy(f) then Worker.Stop(Some(true)) else Worker.Stop(None))
    case PauseCmd => Some(Worker.Pause)
    case KillCmd => Some(Worker.Kill)
    case TickCmd => Some(Worker.Tick)
    case ExitCmd => Some(Worker.Exit)
    case ForceStartCmd => Some(Worker.ForceStart)
    case KeyCmd(_, _) => None
    case UpdateEngineCmd(_, _) => None
  }

  /** A command reaches the worker's engine as the call of the same name; `stop(true)` becomes a finish. */
  lemma CommandBecomesCall(c: Ctrl, e: Worker.Engine, cmd: Command, status: map<string, Value>)
    requires c.worker != Gone && IntendedCall(cmd).Some?
    ensures var (_, posted) := Send(c, cmd);
            Worker.OnMessage(Some(e), posted[0], status).calls == [IntendedCall(cmd).value]
  {
  }
}
