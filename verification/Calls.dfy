/**
 * The operation list and the call state machine
 * (Lab/sofsip-cli-0.16/src/ssc_oper.c, ssc_sip.c and the base part of
 * ssc_media.c) as a machine over values: every command, stack event and media
 * signal is one function from state to state.
 *
 * An operation is named by the order of its creation. Its record stays in `ops`
 * after the operation is destroyed, with the contents it had then.
 */
module Calls {
  import opened Common
  import opened MediaStates

  datatype SipMethod = Invite | Message | Options | Info | Refer | Subscribe | Register | Publish

  predicate Persistent(m: SipMethod) {
    m.Subscribe? || m.Register? || m.Publish?
  }

  // Bits of the call-state word (ssc_oper.h:82-90).
  const SENT: bv8 := 1
  const RECV: bv8 := 2
  const ACTIVE: bv8 := 4
  const PENDING: bv8 := 16

  predicate Has(word: bv8, bit: bv8) {
    word & bit != 0
  }

  /** `open`: the operation still holds its SIP handle. */
  datatype Op = Op(verb: SipMethod, word: bv8, persistent: bool, open: bool)

  /** What the program tells the SIP stack and the signal system, oldest first. */
  datatype Action =
    | Notified(op: nat, signal: MediaState)  // media callback entered for op
    | InviteSent(op: nat)                    // nua_invite
    | Responded(op: nat, status: int)        // nua_respond
    | ByeSent(op: nat)                       // nua_bye
    | Connected(op: nat)                     // media callback of op connected
    | Disconnected(op: nat)                  // media callback of op disconnected
    | Closed(op: nat)                        // nua_handle_destroy

  /**
   * `list`: the linked list, first operation first. `watchers`: the operations
   * connected to the media signal, oldest connection first, once per connection.
   */
  datatype State = State(
    ops: seq<Op>,
    list: seq<nat>,
    media: MediaState,
    watchers: seq<nat>,
    answer: int,
    log: seq<Action>)

  const Initial := State([], [], Init, [], 0, [])

  /** What one activation of a media implementation does: signals, then a result. */
  datatype Activation = Activation(signals: seq<MediaState>, failed: bool)

  /** The activation of the base implementation (ssc_media.c:260-285). */
  const BaseActivation := Activation([Active], false)

  /** Answers "is there a local SDP" at the callback logged at a given position. */
  type Sdp = nat -> bool

  predicate HasInvite(ops: seq<Op>, list: seq<nat>) {
    exists id :: id in list && id < |ops| && ops[id].verb.Invite?
  }

  /** No operation is added, connected or put on the list. */
  predicate Narrows(s: State, r: State) {
    && |r.ops| == |s.ops|
    && (forall id :: id in r.list ==> id in s.list)
    && (forall id :: id in r.watchers ==> id in s.watchers)
  }

  function SetWord(s: State, id: nat, word: bv8): State
    requires id < |s.ops|
  {
    s.(ops := s.ops[id := s.ops[id].(word := word)])
  }

  function Log(s: State, a: Action): State {
    s.(log := s.log + [a])
  }

  /** The list without the first occurrence of `id`. */
  function Unlinked<T(==)>(list: seq<T>, id: T): (r: seq<T>)
    ensures forall x :: x in r ==> x in list
    ensures forall x :: x in list && x != id ==> x in r
  {
    if list == [] then []
    else if list[0] == id then list[1..]
    else [list[0]] + Unlinked(list[1..], id)
  }

  function Without<T(==)>(watchers: seq<T>, id: T): (r: seq<T>)
    ensures forall x :: x in r ==> x in watchers && x != id
    ensures forall x :: x in watchers && x != id ==> x in r
  {
    if watchers == [] then []
    else if watchers[0] == id then Without(watchers[1..], id)
    else [watchers[0]] + Without(watchers[1..], id)
  }

  function CloseHandle(s: State, id: nat): State
    requires id < |s.ops|
  {
    var t := s.(list := Unlinked(s.list, id), ops := s.ops[id := s.ops[id].(open := false)]);
    if s.ops[id].open then Log(t, Closed(id)) else t
  }

  /** ssc_oper_destroy. */
  function Destroy(s: State, id: nat): (r: State)
    requires id < |s.ops|
    ensures Narrows(s, r) && r.watchers == s.watchers
  {
    var t := CloseHandle(s, id);
    if HasInvite(t.ops, t.list) then t else t.(media := Disabled)
  }

  function Disconnect(s: State, id: nat): State {
    Log(s.(watchers := Without(s.watchers, id)), Disconnected(id))
  }

  /** priv_destroy_oper_with_disconnect. */
  function DestroyDisconnected(s: State, id: nat): (r: State)
    requires id < |s.ops|
    ensures Narrows(s, r)
  {
    Destroy(Disconnect(s, id), id)
  }

  /** A new operation in front of the list. */
  function Prepend(s: State, m: SipMethod): State {
    s.(ops := s.ops + [Op(m, 0, Persistent(m), true)], list := [|s.ops|] + s.list)
  }

  predicate Keeps(o: Op) {
    o.persistent || o.word != 0
  }

  predicate Known(s: State, ids: seq<nat>) {
    forall id :: id in ids ==> id < |s.ops|
  }

  predicate Tidy(s: State) {
    Known(s, s.list) && Known(s, s.watchers)
  }

  /** The loop of ssc_oper_create that cleans old operations. */
  function Clean(s: State, todo: seq<nat>): (r: State)
    requires Known(s, todo)
    ensures Narrows(s, r) && r.watchers == s.watchers
    decreases |todo|
  {
    if todo == [] then s
    else
      assert todo[0] in todo && forall id :: id in todo[1..] ==> id in todo;
      if Keeps(s.ops[todo[0]]) then Clean(s, todo[1..])
      else Clean(Destroy(s, todo[0]), todo[1..])
  }

  /** ssc_oper_create with a destination. */
  function Create(s: State, m: SipMethod, valid: bool): (r: State)
    requires Known(s, s.list)
    ensures |r.ops| == (if valid then |s.ops| + 1 else |s.ops|) && r.watchers == s.watchers
    ensures Known(r, r.list)
  {
    if !valid then s
    else if Persistent(m) then Prepend(s, m)
    else Clean(Prepend(s, m), s.list)
  }

  /** The first operation of `list` that satisfies `wanted`. */
  function First(ops: seq<Op>, list: seq<nat>, wanted: Op -> bool): (r: Option<nat>)
    ensures r.Some? ==> r.value in list && r.value < |ops| && wanted(ops[r.value])
  {
    if list == [] then None
    else if list[0] < |ops| && wanted(ops[list[0]]) then Some(list[0])
    else First(ops, list[1..], wanted)
  }

  function InCall(): Op -> bool { (o: Op) => o.word != 0 }
  function Unanswered(): Op -> bool { (o: Op) => o.word == RECV }
  function Embryonic(): Op -> bool { (o: Op) => o.word == 0 && o.verb.Invite? }
  function Transient(): Op -> bool { (o: Op) => !o.persistent }
  function Lasting(m: SipMethod): Op -> bool { (o: Op) => o.verb == m && o.persistent }

  predicate Success(status: int) {
    200 <= status < 300
  }

  predicate Ready(signal: MediaState) {
    signal.LocalReady? || signal.Active?
  }

  /** Second phase of an outgoing call. */
  function Offer(s: State, id: nat, sdp: bool): (r: State)
    requires id < |s.ops|
    ensures Narrows(s, r)
  {
    if sdp then SetWord(Log(s, InviteSent(id)), id, SENT)
    else DestroyDisconnected(SetWord(s, id, 0), id)
  }

  /** Second phase of an incoming call. */
  function Respond(s: State, id: nat, sdp: bool): (r: State)
    requires id < |s.ops|
    ensures Narrows(s, r)
  {
    if !sdp then SetWord(Log(s, Responded(id, 500)), id, 0)
    else SetWord(Log(s, Responded(id, s.answer)), id,
                 if Success(s.answer) then s.ops[id].word | SENT else 0)
  }

  function React(s: State, id: nat, signal: MediaState, sdp: bool): (r: State)
    requires id < |s.ops|
    ensures Narrows(s, r)
  {
    if Ready(signal) then
      if Has(s.ops[id].word, PENDING) && s.media != Disabled then Offer(s, id, sdp)
      else if Has(s.ops[id].word, RECV) then Respond(s, id, sdp)
      else s
    else if signal.Error? then DestroyDisconnected(s.(media := Disabled), id)
    else s
  }

  /** priv_media_state_cb. */
  function Callback(s: State, id: nat, signal: MediaState, sdp: Sdp): (r: State)
    requires id < |s.ops|
    ensures Narrows(s, r)
  {
    React(Log(s, Notified(id, signal)), id, signal, sdp(|s.log|))
  }

  /** The emission of a signal: each connection of `todo` that is still there. */
  function Emit(s: State, signal: MediaState, todo: seq<nat>, sdp: Sdp): (r: State)
    requires Known(s, todo)
    ensures Narrows(s, r)
    decreases |todo|
  {
    if todo == [] then s
    else
      assert todo[0] in todo && forall id :: id in todo[1..] ==> id in todo;
      var t := if todo[0] in s.watchers then Callback(s, todo[0], signal, sdp) else s;
      Emit(t, signal, todo[1..], sdp)
  }

  /** ssc_media_signal_state_change. */
  function Signal(s: State, signal: MediaState, sdp: Sdp): (r: State)
    requires Known(s, s.watchers)
    ensures Narrows(s, r) && (Tidy(s) ==> Tidy(r))
  {
    if s.media == signal then s else Emit(s.(media := signal), signal, s.watchers, sdp)
  }

  /** The signals of one activation, one after the other. */
  function Signals(s: State, signals: seq<MediaState>, sdp: Sdp): (r: State)
    requires Known(s, s.watchers)
    ensures Narrows(s, r)
    decreases |signals|
  {
    if signals == [] then s else Signals(Signal(s, signals[0], sdp), signals[1..], sdp)
  }

  function Connect(s: State, id: nat): State {
    Log(s.(watchers := s.watchers + [id]), Connected(id))
  }

  /** Connects an operation, activates the media and gives up the operation on failure. */
  function Activate(s: State, id: nat, act: Activation, sdp: Sdp): (r: State)
    requires id < |s.ops| && Tidy(s)
    ensures Tidy(r)
  {
    var t := Signals(Connect(s, id), act.signals, sdp);
    if act.failed then DestroyDisconnected(t, id) else t
  }

  /** ssc_invite. */
  function StartCall(s: State, valid: bool, act: Activation, sdp: Sdp): (r: State)
    requires Tidy(s)
    ensures Tidy(r)
  {
    if !valid then s
    else
      var t := Create(s, Invite, true);
      Activate(SetWord(t, |s.ops|, t.ops[|s.ops|].word | PENDING), |s.ops|, act, sdp)
  }

  /** ssc_answer. */
  function Answer(s: State, status: int, act: Activation, sdp: Sdp): (r: State)
    requires Tidy(s)
    ensures Tidy(r)
  {
    match First(s.ops, s.list, Unanswered())
    case None => s
    case Some(id) =>
      var t := s.(answer := status);
      if Success(status) then Activate(t, id, act, sdp)
      else DestroyDisconnected(Log(t, Responded(id, status)), id)
  }

  /** ssc_i_invite on a new handle. */
  function NewCall(s: State): State {
    var t := Prepend(s, Invite);
    SetWord(t, |s.ops|, RECV)
  }

  /** ssc_i_invite on a known operation. */
  function InviteAgain(s: State, id: nat): State
    requires id < |s.ops|
  {
    SetWord(s, id, s.ops[id].word | RECV)
  }

  function IncomingCall(s: State, op: Option<nat>): (r: State)
    requires op.Some? ==> op.value < |s.ops|
  {
    if op.Some? then InviteAgain(s, op.value) else NewCall(s)
  }

  /** ssc_i_invite. */
  function Ring(s: State, op: Option<nat>, auto: bool, act: Activation, sdp: Sdp): (r: State)
    requires op.Some? ==> op.value < |s.ops|
    requires Tidy(s)
    ensures Tidy(r)
  {
    var t := IncomingCall(s, op);
    var id := if op.Some? then op.value else |s.ops|;
    if t.ops[id].word == RECV && auto then Answer(t, 200, act, sdp) else t
  }

  /** ssc_i_state, terminated. */
  function Hangup(s: State, id: nat): (r: State)
    requires id < |s.ops| && Tidy(s)
    ensures Tidy(r)
  {
    DestroyDisconnected(SetWord(s, id, 0), id).(media := Disabled)
  }

  /** ssc_bye. */
  function Bye(s: State): (r: State)
    requires Tidy(s)
    ensures Tidy(r)
  {
    match First(s.ops, s.list, InCall())
    case None => s
    case Some(id) => SetWord(Log(s, ByeSent(id)), id, 0)
  }

  /** ssc_zap. */
  function Zap(s: State): (r: State)
    requires Tidy(s)
    ensures Tidy(r)
  {
    match First(s.ops, s.list, Transient())
    case None => s
    case Some(id) => DestroyDisconnected(s, id)
  }

  /** ssc_notify. */
  function Decline(s: State): (r: State)
    requires Tidy(s)
    ensures Tidy(r)
  {
    match First(s.ops, s.list, Embryonic())
    case None => s
    case Some(id) => Destroy(s, id)
  }

  /** ssc_oper_create unless an operation already serves the request. */
  function CreateUnless(s: State, wanted: Op -> bool, m: SipMethod, valid: bool): (r: State)
    requires Tidy(s)
    ensures Tidy(r)
  {
    if First(s.ops, s.list, wanted).Some? then s else Create(s, m, valid)
  }

  datatype Command =
    | Call(valid: bool, act: Activation)
    | Reply(status: int, act: Activation)
    | EndCall
    | ZapFirst
    | Reject
    | Send(m: SipMethod, valid: bool)             // message, options, subscribe, watch
    | SendRefer(valid: bool)
    | SendRegister(registrar: bool, valid: bool)  // register and unregister
    | SendPublish(valid: bool)                    // publish and unpublish

  datatype StackEvent =
    | GotInvite(op: Option<nat>, auto: bool, act: Activation)
    | GotRequest(m: SipMethod)                    // MESSAGE or INFO on a new handle
    | GotRefer(sip: bool, valid: bool)
    | InviteResult(id: nat, status: int)
    | CallReady(id: nat)
    | CallTerminated(id: nat)
    | SubscribeResult(id: nat, status: int)
    | UnsubscribeResult(id: nat, status: int)
    | RegisterResult(id: nat, status: int)
    | UnregisterResult(id: nat, status: int)
    | PublishResult(id: nat, status: int, expired: bool)

  /** `MediaSignal`: a signal of the media subsystem outside an activation. */
  datatype Event = Do(command: Command) | Got(event: StackEvent) | MediaSignal(signal: MediaState)

  predicate Challenge(status: int) {
    status == 401 || status == 407
  }

  predicate On(s: State, id: nat, m: SipMethod) {
    id in s.list && id < |s.ops| && s.ops[id].verb == m
  }

  predicate Sendable(c: Command) {
    c.Send? ==> c.m.Message? || c.m.Options? || c.m.Subscribe?
  }

  /** The stack names an operation only while its handle lives, and answers its own requests. */
  predicate Deliverable(s: State, e: StackEvent) {
    match e
    case GotInvite(op, _, _) => op.Some? ==> op.value in s.list
    case GotRequest(m) => m.Message? || m.Info?
    case GotRefer(_, _) => true
    case InviteResult(id, _) => id in s.list
    case CallReady(id) => id in s.list
    case CallTerminated(id) => id in s.list
    case SubscribeResult(id, _) => On(s, id, Subscribe)
    case UnsubscribeResult(id, _) => On(s, id, Subscribe)
    case RegisterResult(id, _) => On(s, id, Register)
    case UnregisterResult(id, _) => On(s, id, Register)
    case PublishResult(id, _, _) => On(s, id, Publish)
  }

  predicate Enabled(s: State, e: Event) {
    match e
    case Do(c) => Sendable(c)
    case Got(ev) => Deliverable(s, ev)
    case MediaSignal(_) => true
  }

  /** A final answer that ends a registration-like operation. */
  function EndIf(s: State, id: nat, ends: bool): (r: State)
    requires id < |s.ops| && Tidy(s)
    ensures Tidy(r)
  {
    if ends then Destroy(s, id) else s
  }

  /** Which answers end an operation that keeps up a subscription, registration or publication. */
  predicate Ends(e: StackEvent) {
    match e
    case UnsubscribeResult(_, status) => status >= 200
    case RegisterResult(_, status) => status >= 300 && !Challenge(status)
    case UnregisterResult(_, status) => status >= 200 && !Challenge(status)
    case PublishResult(_, status, expired) => status >= 200 && !Challenge(status) && (status >= 300 || expired)
    case _ => false
  }

  /** One command of the user. */
  function Obey(s: State, c: Command, sdp: Sdp): (r: State)
    requires Tidy(s)
    ensures Tidy(r)
  {
    match c
    case Call(valid, act) => StartCall(s, valid, act, sdp)
    case Reply(status, act) => Answer(s, status, act, sdp)
    case EndCall => Bye(s)
    case ZapFirst => Zap(s)
    case Reject => Decline(s)
    case Send(m, valid) => Create(s, m, valid)
    case SendRefer(valid) => CreateUnless(s, InCall(), Refer, valid)
    case SendRegister(registrar, valid) =>
      if registrar then Create(s, Register, valid)
      else CreateUnless(s, Lasting(Register), Register, valid)
    case SendPublish(valid) => CreateUnless(s, Lasting(Publish), Publish, valid)
  }

  /** One event of the SIP stack. */
  function Take(s: State, e: StackEvent, sdp: Sdp): (r: State)
    requires Tidy(s) && Deliverable(s, e)
    ensures Tidy(r)
  {
    match e
    case GotInvite(op, auto, act) => Ring(s, op, auto, act, sdp)
    case GotRequest(m) => Prepend(s, m)
    case GotRefer(sip, valid) => if sip then Create(s, Invite, valid) else s
    case InviteResult(id, status) =>
      if status >= 300 then SetWord(s, id, s.ops[id].word & !SENT) else s
    case CallReady(id) => SetWord(s, id, ACTIVE)
    case CallTerminated(id) => Hangup(s, id)
    case SubscribeResult(id, status) =>
      if status >= 300 then s.(ops := s.ops[id := s.ops[id].(persistent := false)]) else s
    case _ => EndIf(s, e.id, Ends(e))
  }

  function Step(s: State, e: Event, sdp: Sdp): (r: State)
    requires Tidy(s) && Enabled(s, e)
    ensures Tidy(r)
  {
    match e
    case Do(c) => Obey(s, c, sdp)
    case Got(ev) => Take(s, ev, sdp)
    case MediaSignal(signal) => Signal(s, signal, sdp)
  }

  /** Every event of the run is enabled when it comes. */
  predicate Possible(s: State, events: seq<Event>, sdp: Sdp)
    requires Tidy(s)
    decreases |events|
  {
    events == [] ||
    (Enabled(s, events[0]) && Possible(Step(s, events[0], sdp), events[1..], sdp))
  }

  function Run(s: State, events: seq<Event>, sdp: Sdp): (r: State)
    requires Tidy(s) && Possible(s, events, sdp)
    ensures Tidy(r)
    decreases |events|
  {
    if events == [] then s else Run(Step(s, events[0], sdp), events[1..], sdp)
  }
}
