/**
 * The handlers a successful legacy `join-room` installs (index.js:346-413).
 * As in server.js they are registered per join, not per connection: a
 * connection that joined two rooms holds two sets of handlers, and each
 * event it sends runs every one of them in registration order.
 */
module LegacySessions {
  import opened Wrappers
  import opened JsValues
  import opened Registry
  import opened Rooms
  import opened Legacy

  /** Handlers of one join: the room they close over and which one-shot handlers are still armed. */
  datatype LegacyBinding = LegacyBinding(id: string, code: string, startArmed: bool, exitArmed: bool, killArmed: bool, errorArmed: bool)

  /** Socket.IO events a joined legacy connection sends. `Error` comes from the transport. */
  datatype LegacyEvent = Start | Exit | Kill | Error | Key(key: Value) | Pause

  datatype LegacyServer = LegacyServer(reg: LegacyRooms, bindings: seq<LegacyBinding>)

  function Armed(id: string, code: string): LegacyBinding {
    LegacyBinding(id, code, true, true, true, true)
  }

  /** Is this binding's handler for `ev` still installed? */
  predicate Listening(b: LegacyBinding, ev: LegacyEvent) {
    match ev
    case Exit => b.exitArmed
    case Kill => b.killArmed
    case Error => b.errorArmed
    case _ => true
  }

  /** The one-shot events that take the caller out of the game. */
  predicate Leaves(ev: LegacyEvent) {
    ev.Exit? || ev.Kill? || ev.Error?
  }

  /** One binding's handler for `ev`: its step and the binding afterwards. */
  function Handle(reg: LegacyRooms, b: LegacyBinding, ev: LegacyEvent): (r: (LegacyStep, LegacyBinding))
    ensures r.1.id == b.id && r.1.code == b.code
    ensures !Listening(b, ev) ==> r == (LegacyStep(reg, [], []), b)
    ensures Leaves(ev) ==> !Listening(r.1, ev)
    ensures (ev.Exit? || ev.Kill?) && Listening(b, ev) ==> r.0 == Legacy.Exit(reg, b.code, b.id)
    ensures ev.Error? && Listening(b, ev) ==> r.0 == Legacy.Error(reg, b.code, b.id)
    ensures ev.Start? && b.startArmed ==> r.0 == FirstStart(reg, b.code, b.id) && !r.1.startArmed
    ensures ev.Start? && !b.startArmed ==> r.0 == LegacyStep(reg, [Emit(ToSocket(b.id), StartAck)], [])
    ensures ev.Pause? ==> r.0 == LegacyStep(reg, [Emit(ToSocket(b.id), PauseAck)], [])
    ensures ev.Key? ==> r.0 == LegacyStep(Legacy.Key(reg, b.code, b.id, ev.key), [], [])
  {
    if !Listening(b, ev) then (LegacyStep(reg, [], []), b)
    else match ev
      case Exit => (Legacy.Exit(reg, b.code, b.id), b.(exitArmed := false))
      case Kill => (Legacy.Exit(reg, b.code, b.id), b.(killArmed := false))
      case Error => (Legacy.Error(reg, b.code, b.id), b.(errorArmed := false))
      case Start =>
        if b.startArmed then (FirstStart(reg, b.code, b.id), b.(startArmed := false))
        else (LegacyStep(reg, [Emit(ToSocket(b.id), StartAck)], []), b)
      case Key(k) => (LegacyStep(Legacy.Key(reg, b.code, b.id, k), [], []), b)
      case Pause => (LegacyStep(reg, [Emit(ToSocket(b.id), PauseAck)], []), b)
  }

  /** Deliver `ev` from connection `id` to one binding: another connection's binding is skipped. */
  function DeliverTo(reg: LegacyRooms, b: LegacyBinding, id: string, ev: LegacyEvent): (r: (LegacyStep, LegacyBinding))
    ensures r.1.id == b.id && r.1.code == b.code
    ensures b.id != id ==> r == (LegacyStep(reg, [], []), b)
    ensures b.id == id ==> r == Handle(reg, b, ev)
    ensures Leaves(ev) && b.id == id ==> !Listening(r.1, ev)
  {
    if b.id == id then Handle(reg, b, ev) else (LegacyStep(reg, [], []), b)
  }

  /** Deliver `ev` from connection `id` to each of its bindings in turn. */
  function Dispatch(reg: LegacyRooms, bs: seq<LegacyBinding>, id: string, ev: LegacyEvent): (r: (LegacyStep, seq<LegacyBinding>))
    ensures |r.1| == |bs|
    ensures forall i :: 0 <= i < |bs| ==> r.1[i].id == bs[i].id && r.1[i].code == bs[i].code
    ensures forall i :: 0 <= i < |bs| && bs[i].id != id ==> r.1[i] == bs[i]
    ensures Leaves(ev) ==> forall i :: 0 <= i < |bs| && bs[i].id == id ==> !Listening(r.1[i], ev)
    ensures (forall i :: 0 <= i < |bs| ==> bs[i].id != id) ==> r.0 == LegacyStep(reg, [], [])
    decreases |bs|
  {
    if |bs| == 0 then (LegacyStep(reg, [], []), [])
    else
      var (s0, b0) := DeliverTo(reg, bs[0], id, ev);
      var (s1, rest) := Dispatch(s0.reg, bs[1..], id, ev);
      (LegacyStep(s1.reg, s0.out + s1.out, s0.calls + s1.calls), [b0] + rest)
  }

  /** `join-room` with its handlers: an accepted join adds one binding for this connection and room. */
  function JoinSession(srv: LegacyServer, code: string, id: string): (r: (LegacyServer, seq<Emit>))
    ensures r.0.reg == Legacy.JoinRoom(srv.reg, code, id).reg
    ensures r.1 == Legacy.JoinRoom(srv.reg, code, id).out
    ensures srv.reg.Live(code) && id !in srv.reg.entries[code].value.players ==>
              r.0.bindings == srv.bindings + [Armed(id, code)]
    ensures !(srv.reg.Live(code) && id !in srv.reg.entries[code].value.players) ==> r.0 == srv
  {
    var s := Legacy.JoinRoom(srv.reg, code, id);
    if srv.reg.Live(code) && id !in srv.reg.entries[code].value.players
    then (LegacyServer(s.reg, srv.bindings + [Armed(id, code)]), s.out)
    else (srv, s.out)
  }

  /** An event from one connection, delivered to all its bindings. */
  function Receive(srv: LegacyServer, id: string, ev: LegacyEvent): (r: (LegacyServer, seq<Emit>)) {
    var (s, bs) := Dispatch(srv.reg, srv.bindings, id, ev);
    (LegacyServer(s.reg, bs), s.out)
  }

  /** One exit or kill handler answers its caller once and calls nothing. */
  lemma ExitReply(reg: LegacyRooms, b: LegacyBinding, ev: LegacyEvent)
    requires (ev.Exit? || ev.Kill?) && Listening(b, ev)
    ensures Handle(reg, b, ev).0.out == [Emit(ToSocket(b.id), Killed)] && Handle(reg, b, ev).0.calls == []
  {
  }

  /**
   * A connection that joined two rooms is told twice that it was killed
   * when it exits: once by the handlers of each join.
   */
  lemma TwoJoinsTwoReplies(reg: LegacyRooms, a: string, b: string, id: string)
    ensures var d := Dispatch(reg, [Armed(id, a), Armed(id, b)], id, Exit).0;
            d.out == [Emit(ToSocket(id), Killed), Emit(ToSocket(id), Killed)] && d.calls == []
  {
    var first := Handle(reg, Armed(id, a), Exit).0;
    ExitReply(reg, Armed(id, a), Exit);
    var second := Handle(first.reg, Armed(id, b), Exit).0;
    ExitReply(first.reg, Armed(id, b), Exit);
    assert [Armed(id, a), Armed(id, b)][1..] == [Armed(id, b)];
    assert Dispatch(first.reg, [Armed(id, b)], id, Exit).0.out == second.out;
  }

  /** Each leaving event fires at most once per join: a repeat changes nothing and sends nothing. */
  lemma {:induction false} LeaveFiresOnce(srv: LegacyServer, id: string, ev: LegacyEvent)
    requires Leaves(ev)
    ensures var (after, _) := Receive(srv, id, ev);
            Receive(after, id, ev) == (after, [])
  {
    var (s, bs) := Dispatch(srv.reg, srv.bindings, id, ev);
    DispatchSilent(s.reg, bs, id, ev);
  }

  /** Delivering an event no binding listens to is a no-op. */
  lemma {:induction false} DispatchSilent(reg: LegacyRooms, bs: seq<LegacyBinding>, id: string, ev: LegacyEvent)
    requires forall i :: 0 <= i < |bs| && bs[i].id == id ==> !Listening(bs[i], ev)
    ensures Dispatch(reg, bs, id, ev) == (LegacyStep(reg, [], []), bs)
    decreases |bs|
  {
    if |bs| > 0 {
      var (s0, b0) := DeliverTo(reg, bs[0], id, ev);
      assert s0 == LegacyStep(reg, [], []) && b0 == bs[0];
      DispatchSilent(reg, bs[1..], id, ev);
      var (s1, rest) := Dispatch(s0.reg, bs[1..], id, ev);
      assert s1 == LegacyStep(reg, [], []) && rest == bs[1..];
      assert s0.out + s1.out == [] && s0.calls + s1.calls == [];
      assert [b0] + rest == bs;
    }
  }
}
