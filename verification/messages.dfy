/**
 * The objects posted between the controller and its worker thread. A
 * message is a plain object: a `type`, optional `snakes` and `grid`
 * snapshots, and any number of other fields. `Object.keys` of a message
 * counts every field present, including those whose value is null.
 */
module Messages {
  import opened Wrappers
  import opened JsValues
  import opened Snapshot

  /** A field of a posted object: missing, present with null, or present with a value. */
  datatype Field<+T> = Absent | Null | Present(value: T)

  datatype Message = Message(kind: string, snakes: Field<seq<Snake>>, grid: Field<Grid>, props: map<string, Value>)

  /** The names held outside `props`. */
  predicate Reserved(k: string) {
    k == "type" || k == "snakes" || k == "grid"
  }

  /** `props` holds only the other fields. */
  predicate WellFormed(m: Message) {
    forall k :: k in m.props ==> !Reserved(k)
  }

  /** `Object.keys(data).length`. */
  function KeyCount(m: Message): (n: nat)
    ensures n >= 1
    ensures n == 1 <==> m.snakes.Absent? && m.grid.Absent? && m.props == map[]
  {
    1 + (if m.snakes.Absent? then 0 else 1) + (if m.grid.Absent? then 0 else 1) + |m.props|
  }

  /** `data[k]` for a field kept in `props`: undefined when missing. */
  function Prop(m: Message, k: string): Value {
    if k in m.props then m.props[k] else Undefined
  }

  /** A message that carries only its type. */
  function Bare(t: string): (m: Message)
    ensures WellFormed(m) && KeyCount(m) == 1 && m.kind == t
  {
    Message(t, Absent, Absent, map[])
  }

  /** The events the engine raises and the controller re-raises, one per worker message type. */
  datatype EngineEvent = OnReset | OnStart | OnPause | OnContinue | OnStop | OnExit | OnKill | OnScoreIncreased | OnUpdate | OnUpdateCounter

  /** The `type` the worker posts for an event (GameEngineMultithreading.js:140-314). */
  function TypeOf(ev: EngineEvent): string {
    match ev
    case OnReset => "reset"
    case OnStart => "start"
    case OnPause => "pause"
    case OnContinue => "continue"
    case OnStop => "stop"
    case OnExit => "exit"
    case OnKill => "kill"
    case OnScoreIncreased => "scoreIncreased"
    case OnUpdate => "update"
    case OnUpdateCounter => "updateCounter"
  }

  /** The controller's `switch(type)` (GameEngineMultithreadingController.js:71-103). */
  function EventOf(t: string): (r: Option<EngineEvent>)
    ensures r.Some? ==> TypeOf(r.value) == t
  {
    if t == "reset" then Some(OnReset)
    else if t == "start" then Some(OnStart)
    else if t == "pause" then Some(OnPause)
    else if t == "continue" then Some(OnContinue)
    else if t == "stop" then Some(OnStop)
    else if t == "exit" then Some(OnExit)
    else if t == "kill" then Some(OnKill)
    else if t == "scoreIncreased" then Some(OnScoreIncreased)
    else if t == "update" then Some(OnUpdate)
    else if t == "updateCounter" then Some(OnUpdateCounter)
    else None
  }

  /** Every event the worker forwards is re-raised as the same event on the main thread, and only it. */
  lemma EventTypesRoundTrip(ev: EngineEvent, t: string)
    ensures EventOf(TypeOf(ev)) == Some(ev)
    ensures EventOf(t) == Some(ev) <==> t == TypeOf(ev)
  {
  }
}
