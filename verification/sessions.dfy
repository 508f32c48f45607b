/**
 * The per-connection handlers a successful `join-room` installs
 * (server.js:823-887). Each join adds one binding; a connection that
 * leaves and joins again keeps its earlier bindings, whose one-shot
 * handlers that have not fired yet stay armed. Socket.IO delivers an event
 * to every handler of that connection in registration order.
 */
module Sessions {
  import opened Wrappers
  import opened JsValues
  import opened Roster
  import opened Registry
  import opened Rooms
  import opened Matchmaking
  import opened Lobby

  /** Handlers of one join: the room they close over and which one-shot handlers are still armed. */
  datatype Binding = Binding(
    id: string, code: string,
    startArmed: bool, exitArmed: bool, killArmed: bool, errorArmed: bool, disconnectArmed: bool)

  /** Socket.IO events a joined connection sends. `Error` and `Disconnect` come from the transport. */
  datatype Event = Start | Exit | Kill | Error | Disconnect | Key(key: Value) | Pause | Reset | ForceStart

  /**
   * The rooms, the bindings, and for each reaped room the `started` flag
   * its object held when it was reaped: handlers close over the room
   * object, which outlives its entry, and `reset` still reads that flag.
   */
  datatype Server = Server(reg: Rooms, bindings: seq<Binding>, reaped: map<string, bool>)

  function Armed(id: string, code: string): Binding {
    Binding(id, code, true, true, true, true, true)
  }

  /** The one-shot events whose handler is `exitGame`. */
  predicate Leaves(ev: Event) {
    ev.Exit? || ev.Kill? || ev.Error? || ev.Disconnect?
  }

  /** Is this binding's handler for `ev` still installed? */
  predicate Listening(b: Binding, ev: Event) {
    match ev
    case Exit => b.exitArmed
    case Kill => b.killArmed
    case Error => b.errorArmed
    case Disconnect => b.disconnectArmed
    case _ => true
  }

  /** The binding after its handler for `ev` ran: a one-shot handler is removed. */
  function Disarm(b: Binding, ev: Event): (r: Binding)
    ensures r.id == b.id && r.code == b.code
    ensures Leaves(ev) ==> !Listening(r, ev)
    ensures forall e :: e != ev ==> Listening(r, e) == Listening(b, e)
  {
    match ev
    case Exit => b.(exitArmed := false)
    case Kill => b.(killArmed := false)
    case Error => b.(errorArmed := false)
    case Disconnect => b.(disconnectArmed := false)
    case Start => b.(startArmed := false)
    case _ => b
  }

  /** The `started` flag of a reaped room's object, None if the code was never reaped. */
  function ReapedStarted(reaped: map<string, bool>, code: string): Option<bool> {
    if code in reaped then Some(reaped[code]) else None
  }

  /**
   * Record the rooms a step reaped: each keeps the `started` flag it had
   * before the step. Nothing a leaving step does changes that flag.
   */
  function Reap(reaped: map<string, bool>, before: Rooms, after: Rooms): map<string, bool> {
    var gone := set c | c in before.entries && before.Live(c) && !after.Live(c);
    map c | c in reaped.Keys + gone :: if c in gone then before.entries[c].value.started else reaped[c]
  }

  /** Each reaped room is recorded with its flag; earlier records are kept, and nothing else is added. */
  lemma ReapRecords(reaped: map<string, bool>, before: Rooms, after: Rooms)
    ensures var r := Reap(reaped, before, after);
            && (forall c :: c in before.entries && before.Live(c) && !after.Live(c) ==>
                  c in r && r[c] == before.entries[c].value.started)
            && (forall c :: c in reaped && !(c in before.entries && before.Live(c) && !after.Live(c)) ==>
                  c in r && r[c] == reaped[c])
            && (forall c :: c in r ==> c in reaped || (c in before.entries && before.Live(c) && !after.Live(c)))
  {
  }

  /** A step that reaps nothing records nothing. */
  lemma ReapNothing(reaped: map<string, bool>, reg: Rooms)
    ensures Reap(reaped, reg, reg) == reaped
  {
  }

  /** One binding's handler for `ev`: its effect on the rooms, what it sends, the binding afterwards. */
  function Handle(cfg: Config, reg: Rooms, reaped: map<string, bool>, b: Binding, ev: Event): (r: (Step, Binding))
    ensures r.1.id == b.id && r.1.code == b.code
    ensures !Listening(b, ev) ==> r == (Step(reg, [], []), b)
    ensures Leaves(ev) && Listening(b, ev) ==> r.0 == ExitGame(cfg, reg, b.code, b.id) && !Listening(r.1, ev)
    ensures ev == Pause ==> r.0 == Step(reg, [Emit(ToSocket(b.id), PauseAck)], [])
    ensures ev == Start && !b.startArmed ==> r.0 == Step(reg, [Emit(ToSocket(b.id), StartAck)], [])
    ensures ev == Start && b.startArmed ==> r.0 == FirstStart(cfg, reg, b.code, b.id) && !r.1.startArmed
  {
    if !Listening(b, ev) then (Step(reg, [], []), b)
    else match ev
      case Exit => (ExitGame(cfg, reg, b.code, b.id), Disarm(b, ev))
      case Kill => (ExitGame(cfg, reg, b.code, b.id), Disarm(b, ev))
      case Error => (ExitGame(cfg, reg, b.code, b.id), Disarm(b, ev))
      case Disconnect => (ExitGame(cfg, reg, b.code, b.id), Disarm(b, ev))
      case Start =>
        if b.startArmed then (FirstStart(cfg, reg, b.code, b.id), Disarm(b, ev))
        else (Step(reg, [Emit(ToSocket(b.id), StartAck)], []), b)
      case Key(k) => (Step(Lobby.Key(reg, b.code, b.id, k), [], []), b)
      case Pause => (Step(reg, [Emit(ToSocket(b.id), PauseAck)], []), b)
      case Reset => (Lobby.Reset(cfg, reg, b.code, b.id, ReapedStarted(reaped, b.code)), b)
      case ForceStart => (Lobby.ForceStart(reg, b.code, b.id), b)
  }

  /** `reset` reads the live room, or once it is reaped, the flag recorded for it; the binding stays armed. */
  lemma HandleReset(cfg: Config, reg: Rooms, reaped: map<string, bool>, b: Binding)
    ensures Handle(cfg, reg, reaped, b, Reset) == (Lobby.Reset(cfg, reg, b.code, b.id, ReapedStarted(reaped, b.code)), b)
  {
  }

  /**
   * A connection whose room was reaped before its round started is still
   * answered on `reset`, and nothing else happens.
   */
  lemma ResetAnsweredAfterReap(cfg: Config, reg: Rooms, reaped: map<string, bool>, b: Binding)
    requires !reg.Live(b.code) && b.code in reaped && !reaped[b.code]
    ensures Handle(cfg, reg, reaped, b, Reset).0 == Step(reg, [Emit(ToSocket(b.id), ResetAck)], [])
  {
  }

  /** What delivering one event did: the step, the reaped rooms' flags, the bindings afterwards. */
  datatype Delivered = Delivered(step: Step, reaped: map<string, bool>, bindings: seq<Binding>)

  /**
   * Deliver `ev` from connection `id` to one binding: another connection's
   * binding is skipped; the caller's runs its handler, and a room that
   * handler reaps has its flag recorded.
   */
  function DeliverTo(cfg: Config, reg: Rooms, reaped: map<string, bool>, b: Binding, id: string, ev: Event): (r: Delivered)
    ensures |r.bindings| == 1 && r.bindings[0].id == b.id && r.bindings[0].code == b.code
    ensures b.id != id ==> r == Delivered(Step(reg, [], []), reaped, [b])
    ensures b.id == id ==> r.step == Handle(cfg, reg, reaped, b, ev).0 && r.reaped == Reap(reaped, reg, r.step.reg)
    ensures Leaves(ev) && b.id == id ==> !Listening(r.bindings[0], ev)
  {
    if b.id == id then
      var (s, b') := Handle(cfg, reg, reaped, b, ev);
      Delivered(s, Reap(reaped, reg, s.reg), [b'])
    else Delivered(Step(reg, [], []), reaped, [b])
  }

  /** Deliver `ev` from connection `id` to each of its bindings in turn. */
  function Dispatch(cfg: Config, reg: Rooms, reaped: map<string, bool>, bs: seq<Binding>, id: string, ev: Event): (r: Delivered)
    ensures |r.bindings| == |bs|
    ensures forall i :: 0 <= i < |bs| ==> r.bindings[i].id == bs[i].id && r.bindings[i].code == bs[i].code
    ensures forall i :: 0 <= i < |bs| && bs[i].id != id ==> r.bindings[i] == bs[i]
    ensures Leaves(ev) ==> forall i :: 0 <= i < |bs| && bs[i].id == id ==> !Listening(r.bindings[i], ev)
    ensures (forall i :: 0 <= i < |bs| ==> bs[i].id != id) ==> r.step == Step(reg, [], []) && r.reaped == reaped
    decreases |bs|
  {
    if |bs| == 0 then Delivered(Step(reg, [], []), reaped, [])
    else
      var h := DeliverTo(cfg, reg, reaped, bs[0], id, ev);
      var d := Dispatch(cfg, h.step.reg, h.reaped, bs[1..], id, ev);
      Delivered(Step(d.step.reg, h.step.out + d.step.out, h.step.calls + d.step.calls), d.reaped, h.bindings + d.bindings)
  }

  /**
   * `join-room` with its handlers: a successful join adds one binding for
   * this connection and this room; a rejected one leaves the bindings as they are.
   */
  function JoinSession(cfg: Config, srv: Server, code: string, token: Option<string>, id: string, version: Value): (r: (Server, seq<Emit>))
    ensures r.0.bindings == srv.bindings + [Armed(id, code)] <==> CanJoin(srv.reg, code, token, id)
    ensures !CanJoin(srv.reg, code, token, id) ==> r.0 == srv
    ensures r.0.reg == JoinRoom(cfg, srv.reg, code, token, id, version).reg
    ensures r.0.reaped == srv.reaped
  {
    var s := JoinRoom(cfg, srv.reg, code, token, id, version);
    if CanJoin(srv.reg, code, token, id)
    then (Server(s.reg, srv.bindings + [Armed(id, code)], srv.reaped), s.out)
    else (srv, s.out)
  }

  /** An event from one connection, delivered to all its bindings. */
  function Receive(cfg: Config, srv: Server, id: string, ev: Event): (r: (Server, seq<Emit>)) {
    var d := Dispatch(cfg, srv.reg, srv.reaped, srv.bindings, id, ev);
    (Server(d.step.reg, d.bindings, d.reaped), d.step.out)
  }

  /** Exit, kill, error and disconnect all run the same `exitGame` on a binding that still listens. */
  lemma LeavingEventsAgree(cfg: Config, reg: Rooms, reaped: map<string, bool>, b: Binding, e1: Event, e2: Event)
    requires Leaves(e1) && Leaves(e2) && Listening(b, e1) && Listening(b, e2)
    ensures Handle(cfg, reg, reaped, b, e1).0 == Handle(cfg, reg, reaped, b, e2).0
  {
  }

  /**
   * Each leaving event fires at most once per join: after an exit, a second
   * exit from the same connection changes nothing and sends nothing.
   */
  lemma {:induction false} LeaveFiresOnce(cfg: Config, srv: Server, id: string, ev: Event)
    requires Leaves(ev)
    ensures var (after, _) := Receive(cfg, srv, id, ev);
            Receive(cfg, after, id, ev) == (after, [])
  {
    var d := Dispatch(cfg, srv.reg, srv.reaped, srv.bindings, id, ev);
    DispatchSilent(cfg, d.step.reg, d.reaped, d.bindings, id, ev);
  }

  /** Delivering an event no binding listens to is a no-op. */
  lemma {:induction false} DispatchSilent(cfg: Config, reg: Rooms, reaped: map<string, bool>, bs: seq<Binding>, id: string, ev: Event)
    requires forall i :: 0 <= i < |bs| && bs[i].id == id ==> !Listening(bs[i], ev)
    ensures Dispatch(cfg, reg, reaped, bs, id, ev) == Delivered(Step(reg, [], []), reaped, bs)
    decreases |bs|
  {
    if |bs| > 0 {
      ReapNothing(reaped, reg);
      DispatchSilent(cfg, reg, reaped, bs[1..], id, ev);
      assert bs == [bs[0]] + bs[1..];
    }
  }

  /**
   * A leaving event from a connection that joined one room once is one
   * `exitGame` for that room: the rooms end as `ExitGame` leaves them, and
   * if that reaped the room, its `started` flag is what a later `reset`
   * of the same binding reads.
   */
  lemma {:induction false} SingleJoinExit(cfg: Config, srv: Server, id: string, ev: Event, k: nat)
    requires Leaves(ev) && k < |srv.bindings| && srv.bindings[k].id == id && Listening(srv.bindings[k], ev)
    requires forall i :: 0 <= i < |srv.bindings| && i != k ==> srv.bindings[i].id != id
    ensures Receive(cfg, srv, id, ev).0.reg == ExitGame(cfg, srv.reg, srv.bindings[k].code, id).reg
    ensures var code := srv.bindings[k].code;
            var after := Receive(cfg, srv, id, ev).0;
            srv.reg.Live(code) && !after.reg.Live(code) ==>
              code in after.reaped && after.reaped[code] == srv.reg.entries[code].value.started
  {
    DispatchOne(cfg, srv.reg, srv.reaped, srv.bindings, id, ev, k);
    ReapRecords(srv.reaped, srv.reg, Handle(cfg, srv.reg, srv.reaped, srv.bindings[k], ev).0.reg);
  }

  lemma {:induction false} DispatchOne(cfg: Config, reg: Rooms, reaped: map<string, bool>, bs: seq<Binding>, id: string, ev: Event, k: nat)
    requires k < |bs| && bs[k].id == id
    requires forall i :: 0 <= i < |bs| && i != k ==> bs[i].id != id
    ensures Dispatch(cfg, reg, reaped, bs, id, ev).step.reg == Handle(cfg, reg, reaped, bs[k], ev).0.reg
    ensures Dispatch(cfg, reg, reaped, bs, id, ev).reaped == Reap(reaped, reg, Handle(cfg, reg, reaped, bs[k], ev).0.reg)
    decreases |bs|
  {
    if k > 0 {
      DispatchOne(cfg, reg, reaped, bs[1..], id, ev, k - 1);
    } else {
      var h := DeliverTo(cfg, reg, reaped, bs[0], id, ev);
      assert forall i :: 0 <= i < |bs[1..]| ==> bs[1..][i].id != id;
      var d := Dispatch(cfg, h.step.reg, h.reaped, bs[1..], id, ev);
      assert d.step.reg == h.step.reg && d.reaped == h.reaped;
    }
  }
}
