/**
 * Safety of outgoing calls over every run, with any media implementation: any
 * signals, in or outside activations, and any answer about the local SDP.
 */
module CallSafety {
  import opened Common
  import opened MediaStates
  import opened Calls
  import opened CallLaws

  /**
   * An INVITE goes out right after its operation's callback was entered for a local-ready or active
   * signal, for the first time, before the operation was disconnected and before its handle was
   * closed. A callback is entered only for an operation that was connected and is not disconnected.
   * An operation is connected only before its handle is closed.
   */
  ghost predicate LawfulAt(log: seq<Action>, p: nat)
    requires p < |log|
  {
    var id, past := log[p].op, log[..p];
    match log[p]
    case InviteSent(_) =>
      && p > 0 && log[p - 1].Notified? && log[p - 1].op == id && Ready(log[p - 1].signal)
      && InviteSent(id) !in past && Disconnected(id) !in past && Closed(id) !in past
    case Notified(_, _) => Connected(id) in past && Disconnected(id) !in past
    case Connected(_) => Closed(id) !in past
    case _ => true
  }

  ghost predicate Lawful(log: seq<Action>) {
    forall p :: 0 <= p < |log| ==> LawfulAt(log, p)
  }

  predicate Pending(s: State, id: nat)
    requires id < |s.ops|
  {
    Has(s.ops[id].word, PENDING)
  }

  /** A call that waits for media is an INVITE not sent yet, and is listed if it is connected. */
  ghost predicate WaitsProperly(s: State, id: nat)
    requires id < |s.ops|
  {
    Pending(s, id) ==>
      && s.ops[id].verb.Invite?
      && InviteSent(id) !in s.log
      && (id in s.watchers ==> id in s.list)
  }

  /** What the log says of `a` agrees with the list and the connections. */
  ghost predicate Recorded(s: State, a: Action) {
    && a.op < |s.ops|
    && (a.Closed? ==> a.op !in s.list)
    && (a.Disconnected? ==> a.op !in s.list && a.op !in s.watchers)
  }

  /** An operation is connected from its connection on until it is disconnected. */
  ghost predicate Wired(s: State) {
    forall id :: id in s.watchers <==> Connected(id) in s.log && Disconnected(id) !in s.log
  }

  ghost predicate ListOk(s: State) {
    Tidy(s) && Distinct(s.list) && forall id :: id in s.list ==> s.ops[id].open
  }

  ghost predicate Sound(s: State) {
    && ListOk(s)
    && (forall id :: 0 <= id < |s.ops| ==> WaitsProperly(s, id))
    && (forall a :: a in s.log ==> Recorded(s, a))
    && Wired(s) && Lawful(s.log)
  }

  lemma LawfulGrows(log: seq<Action>, a: Action)
    requires Lawful(log) && LawfulAt(log + [a], |log|)
    ensures Lawful(log + [a])
  {
    var more := log + [a];
    forall p | 0 <= p < |more| ensures LawfulAt(more, p) {
      if p < |log| {
        assert LawfulAt(log, p);
        assert more[..p] == log[..p];
      }
    }
  }

  lemma LogIn(s: State, a: Action)
    ensures forall b :: b in Log(s, a).log <==> b in s.log || b == a
  {
  }

  lemma {:induction false} UnlinkedDistinct(list: seq<nat>, id: nat)
    requires Distinct(list)
    ensures Distinct(Unlinked(list, id)) && id !in Unlinked(list, id)
  {
    if id in list {
      var k :| 0 <= k < |list| && list[k] == id;
      var front, rest := list[..k], list[k + 1..];
      assert list == front + [id] + rest;
      UnlinkedIs(front, id, rest);
      DistinctWithout(front, id, rest);
    } else {
      UnlinkedAbsent(list, id);
    }
  }

  lemma {:induction false} UnlinkedAbsent<T>(list: seq<T>, id: T)
    requires id !in list
    ensures Unlinked(list, id) == list
  {
    if list != [] {
      assert list[0] in list && forall x :: x in list[1..] ==> x in list;
      UnlinkedAbsent(list[1..], id);
    }
  }

  // ----- the pieces of a step -----

  lemma NoteSound(s: State, a: Action)
    requires Sound(s) && a.op < |s.ops| && (a.Responded? || a.ByeSent? || (a.Notified? && a.op in s.watchers))
    ensures Sound(Log(s, a))
  {
    assert (s.log + [a])[..|s.log|] == s.log;
    LogIn(s, a);
    LawfulGrows(s.log, a);
    var t := Log(s, a);
    forall id | 0 <= id < |t.ops| ensures WaitsProperly(t, id) {
      assert WaitsProperly(s, id);
    }
    forall b | b in t.log ensures Recorded(t, b) {
      if b in s.log { assert Recorded(s, b); }
    }
  }

  /** Changing a word is safe unless it makes a call wait. */
  lemma WordSound(s: State, id: nat, word: bv8)
    requires Sound(s) && id < |s.ops| && (Has(word, PENDING) ==> Pending(s, id))
    ensures Sound(SetWord(s, id, word))
  {
    var t := SetWord(s, id, word);
    forall x | 0 <= x < |t.ops| ensures WaitsProperly(t, x) {
      assert WaitsProperly(s, x);
    }
    forall b | b in t.log ensures Recorded(t, b) {
      assert Recorded(s, b);
    }
  }

  /** Sound, except that the operation `id` may be disconnected while still listed. */
  ghost predicate SoundBut(s: State, id: nat) {
    && ListOk(s)
    && (forall x :: 0 <= x < |s.ops| ==> WaitsProperly(s, x))
    && (forall a :: a in s.log ==> Recorded(s, a) || (a == Disconnected(id) && id !in s.watchers && id < |s.ops|))
    && Wired(s) && Lawful(s.log)
  }

  lemma DisconnectSound(s: State, id: nat)
    requires Sound(s) && id < |s.ops|
    ensures SoundBut(Disconnect(s, id), id)
  {
    var t := Disconnect(s, id);
    LogIn(s.(watchers := Without(s.watchers, id)), Disconnected(id));
    LawfulGrows(s.log, Disconnected(id));
    forall x | 0 <= x < |t.ops| ensures WaitsProperly(t, x) {
      assert WaitsProperly(s, x);
    }
    forall a | a in t.log ensures Recorded(t, a) || (a == Disconnected(id) && id !in t.watchers) {
      if a in s.log { assert Recorded(s, a); }
    }
  }

  lemma CloseSound(s: State, id: nat)
    requires id < |s.ops| && SoundBut(s, id)
    requires Pending(s, id) ==> id !in s.watchers
    ensures Sound(CloseHandle(s, id))
  {
    var t := CloseHandle(s, id);
    UnlinkedDistinct(s.list, id);
    LogIn(s, Closed(id));
    LawfulGrows(s.log, Closed(id));
    forall x | 0 <= x < |t.ops| ensures WaitsProperly(t, x) {
      assert WaitsProperly(s, x);
    }
    forall a | a in t.log ensures Recorded(t, a) {
      if a in s.log { assert Recorded(s, a) || a == Disconnected(id); }
    }
  }

  lemma MediaSound(s: State, m: MediaState)
    requires Sound(s)
    ensures Sound(s.(media := m))
  {
    var t := s.(media := m);
    forall x | 0 <= x < |t.ops| ensures WaitsProperly(t, x) {
      assert WaitsProperly(s, x);
    }
    forall a | a in t.log ensures Recorded(t, a) {
      assert Recorded(s, a);
    }
  }

  lemma DestroySound(s: State, id: nat)
    requires Sound(s) && id < |s.ops|
    requires Pending(s, id) ==> id !in s.watchers
    ensures Sound(Destroy(s, id))
  {
    CloseSound(s, id);
    MediaSound(CloseHandle(s, id), Disabled);
  }

  lemma DestroyDisconnectedSound(s: State, id: nat)
    requires Sound(s) && id < |s.ops|
    ensures Sound(DestroyDisconnected(s, id))
  {
    DisconnectSound(s, id);
    CloseSound(Disconnect(s, id), id);
    MediaSound(CloseHandle(Disconnect(s, id), id), Disabled);
  }

  lemma PrependSound(s: State, m: SipMethod)
    requires Sound(s)
    ensures Sound(Prepend(s, m))
  {
    var t := Prepend(s, m);
    PrependCleanable(s, m);
    forall x | 0 <= x < |t.ops| ensures WaitsProperly(t, x) {
      if x < |s.ops| { assert WaitsProperly(s, x); }
    }
    forall a | a in t.log ensures Recorded(t, a) {
      assert Recorded(s, a);
    }
  }

  lemma {:induction false} CleanSound(s: State, todo: seq<nat>)
    requires Sound(s) && Known(s, todo)
    ensures Sound(Clean(s, todo))
    decreases |todo|
  {
    if todo != [] {
      assert todo[0] in todo && forall id :: id in todo[1..] ==> id in todo;
      if Keeps(s.ops[todo[0]]) {
        CleanSound(s, todo[1..]);
      } else {
        DestroySound(s, todo[0]);
        CleanSound(Destroy(s, todo[0]), todo[1..]);
      }
    }
  }

  lemma CreateSound(s: State, m: SipMethod, valid: bool)
    requires Sound(s)
    ensures Sound(Create(s, m, valid))
  {
    PrependSound(s, m);
    if !Persistent(m) {
      CleanSound(Prepend(s, m), s.list);
    }
  }

  // ----- media signals -----

  lemma SendSound(s: State, id: nat)
    requires Sound(s) && id < |s.ops| && Pending(s, id) && id in s.watchers
    requires |s.log| > 0 && s.log[|s.log| - 1].Notified? && s.log[|s.log| - 1].op == id
    requires Ready(s.log[|s.log| - 1].signal)
    ensures Sound(SetWord(Log(s, InviteSent(id)), id, SENT))
  {
    var t := SetWord(Log(s, InviteSent(id)), id, SENT);
    LogIn(s, InviteSent(id));
    assert WaitsProperly(s, id) && id in s.list;
    assert Disconnected(id) !in s.log && Closed(id) !in s.log by {
      assert Disconnected(id) in s.log ==> Recorded(s, Disconnected(id));
      assert Closed(id) in s.log ==> Recorded(s, Closed(id));
    }
    assert (s.log + [InviteSent(id)])[..|s.log|] == s.log;
    LawfulGrows(s.log, InviteSent(id));
    forall x | 0 <= x < |t.ops| ensures WaitsProperly(t, x) {
      assert WaitsProperly(s, x);
    }
    forall a | a in t.log ensures Recorded(t, a) {
      if a in s.log { assert Recorded(s, a); }
    }
  }

  lemma SentBit(word: bv8)
    ensures Has(word | SENT, PENDING) == Has(word, PENDING) && !Has(0, PENDING) && !Has(SENT, PENDING)
  {
  }

  lemma RespondSound(s: State, id: nat, sdp: bool)
    requires Sound(s) && id < |s.ops|
    ensures Sound(Respond(s, id, sdp))
  {
    SentBit(s.ops[id].word);
    var status := if sdp then s.answer else 500;
    NoteSound(s, Responded(id, status));
    var word := if sdp && Success(s.answer) then s.ops[id].word | SENT else 0;
    WordSound(Log(s, Responded(id, status)), id, word);
  }

  lemma CallbackSound(s: State, id: nat, signal: MediaState, sdp: Sdp)
    requires Sound(s) && id < |s.ops| && id in s.watchers
    ensures Sound(Callback(s, id, signal, sdp))
  {
    var t := Log(s, Notified(id, signal));
    NoteSound(s, Notified(id, signal));
    SentBit(0);
    if Ready(signal) {
      if Pending(t, id) && t.media != Disabled {
        if sdp(|s.log|) {
          SendSound(t, id);
        } else {
          WordSound(t, id, 0);
          DestroyDisconnectedSound(SetWord(t, id, 0), id);
        }
      } else {
        RespondSound(t, id, sdp(|s.log|));
      }
    } else {
      MediaSound(t, Disabled);
      DestroyDisconnectedSound(t.(media := Disabled), id);
    }
  }

  lemma {:induction false} EmitSound(s: State, signal: MediaState, todo: seq<nat>, sdp: Sdp)
    requires Sound(s) && Known(s, todo)
    ensures Sound(Emit(s, signal, todo, sdp))
    decreases |todo|
  {
    if todo != [] {
      assert todo[0] in todo && forall id :: id in todo[1..] ==> id in todo;
      if todo[0] in s.watchers {
        CallbackSound(s, todo[0], signal, sdp);
        EmitSound(Callback(s, todo[0], signal, sdp), signal, todo[1..], sdp);
      } else {
        EmitSound(s, signal, todo[1..], sdp);
      }
    }
  }

  lemma SignalSound(s: State, signal: MediaState, sdp: Sdp)
    requires Sound(s)
    ensures Sound(Signal(s, signal, sdp))
  {
    MediaSound(s, signal);
    if s.media != signal {
      EmitSound(s.(media := signal), signal, s.watchers, sdp);
    }
  }

  lemma {:induction false} SignalsSound(s: State, signals: seq<MediaState>, sdp: Sdp)
    requires Sound(s)
    ensures Sound(Signals(s, signals, sdp))
    decreases |signals|
  {
    if signals != [] {
      SignalSound(s, signals[0], sdp);
      SignalsSound(Signal(s, signals[0], sdp), signals[1..], sdp);
    }
  }

  // ----- whole steps -----

  lemma ConnectSound(s: State, id: nat)
    requires Sound(s) && id in s.list
    ensures Sound(Connect(s, id))
  {
    var t := Connect(s, id);
    LogIn(s.(watchers := s.watchers + [id]), Connected(id));
    assert Closed(id) !in s.log && Disconnected(id) !in s.log by {
      assert Disconnected(id) in s.log ==> Recorded(s, Disconnected(id));
      assert Closed(id) in s.log ==> Recorded(s, Closed(id));
    }
    assert (s.log + [Connected(id)])[..|s.log|] == s.log;
    LawfulGrows(s.log, Connected(id));
    forall x | 0 <= x < |t.ops| ensures WaitsProperly(t, x) {
      assert WaitsProperly(s, x);
    }
    forall a | a in t.log ensures Recorded(t, a) {
      if a in s.log { assert Recorded(s, a); }
    }
  }

  lemma ActivateSound(s: State, id: nat, act: Activation, sdp: Sdp)
    requires Sound(s) && id in s.list
    ensures Sound(Activate(s, id, act, sdp))
  {
    ConnectSound(s, id);
    SignalsSound(Connect(s, id), act.signals, sdp);
    if act.failed {
      DestroyDisconnectedSound(Signals(Connect(s, id), act.signals, sdp), id);
    }
  }

  /** Only a call that was never sent starts to wait. */
  lemma StartSound(s: State, id: nat, word: bv8)
    requires Sound(s) && id in s.list && s.ops[id].verb.Invite? && InviteSent(id) !in s.log
    ensures Sound(SetWord(s, id, word))
  {
    var t := SetWord(s, id, word);
    forall x | 0 <= x < |t.ops| ensures WaitsProperly(t, x) {
      assert WaitsProperly(s, x);
    }
    forall a | a in t.log ensures Recorded(t, a) {
      assert Recorded(s, a);
    }
  }

  lemma FreshUnsent(s: State, r: State)
    requires Sound(s) && (forall a :: a in r.log ==> a in s.log || a.Closed?)
    ensures InviteSent(|s.ops|) !in r.log
  {
    assert InviteSent(|s.ops|) in s.log ==> Recorded(s, InviteSent(|s.ops|));
  }

  lemma {:induction false} ClosingsOnly(ids: seq<nat>)
    ensures forall a :: a in Closings(ids) ==> a.Closed?
  {
    if ids != [] { ClosingsOnly(ids[1..]); }
  }

  lemma StartCallSound(s: State, valid: bool, act: Activation, sdp: Sdp)
    requires Sound(s)
    ensures Sound(StartCall(s, valid, act, sdp))
  {
    if valid {
      var id, t := |s.ops|, Create(s, Invite, true);
      CreateSound(s, Invite, true);
      CreateLaw(s, Invite);
      ClosingsOnly(Dropped(s.ops, s.list));
      FreshUnsent(s, t);
      assert t.list[0] == id;
      StartSound(t, id, t.ops[id].word | PENDING);
      ActivateSound(SetWord(t, id, t.ops[id].word | PENDING), id, act, sdp);
    }
  }

  lemma AnswerSound(s: State, status: int, act: Activation, sdp: Sdp)
    requires Sound(s)
    ensures Sound(Answer(s, status, act, sdp))
  {
    var t := s.(answer := status);
    AnswerFieldSound(s, status);
    match First(s.ops, s.list, Unanswered())
    case None =>
    case Some(id) =>
      if Success(status) {
        ActivateSound(t, id, act, sdp);
      } else {
        NoteSound(t, Responded(id, status));
        DestroyDisconnectedSound(Log(t, Responded(id, status)), id);
      }
  }

  lemma AnswerFieldSound(s: State, status: int)
    requires Sound(s)
    ensures Sound(s.(answer := status))
  {
    var t := s.(answer := status);
    forall x | 0 <= x < |t.ops| ensures WaitsProperly(t, x) {
      assert WaitsProperly(s, x);
    }
    forall a | a in t.log ensures Recorded(t, a) {
      assert Recorded(s, a);
    }
  }

  lemma RecvBit(word: bv8)
    ensures Has(word | RECV, PENDING) == Has(word, PENDING) && !Has(RECV, PENDING)
    ensures !Has(ACTIVE, PENDING) && Has(word & !SENT, PENDING) == Has(word, PENDING)
  {
  }

  lemma IncomingSound(s: State, op: Option<nat>)
    requires Sound(s) && (op.Some? ==> op.value in s.list)
    ensures Sound(IncomingCall(s, op))
  {
    if op.Some? {
      RecvBit(s.ops[op.value].word);
      WordSound(s, op.value, s.ops[op.value].word | RECV);
    } else {
      RecvBit(0);
      PrependSound(s, Invite);
      WordSound(Prepend(s, Invite), |s.ops|, RECV);
    }
  }

  lemma RingSound(s: State, op: Option<nat>, auto: bool, act: Activation, sdp: Sdp)
    requires Sound(s) && (op.Some? ==> op.value in s.list)
    ensures Sound(Ring(s, op, auto, act, sdp))
  {
    IncomingSound(s, op);
    AnswerSound(IncomingCall(s, op), 200, act, sdp);
  }

  lemma HangupSound(s: State, id: nat)
    requires Sound(s) && id < |s.ops|
    ensures Sound(Hangup(s, id))
  {
    SentBit(0);
    WordSound(s, id, 0);
    var t := SetWord(s, id, 0);
    DestroyDisconnectedSound(t, id);
    MediaSound(DestroyDisconnected(t, id), Disabled);
  }

  lemma FoundSound(s: State)
    requires Sound(s)
    ensures Sound(Bye(s)) && Sound(Zap(s)) && Sound(Decline(s))
  {
    SentBit(0);
    var call := First(s.ops, s.list, InCall());
    if call.Some? {
      NoteSound(s, ByeSent(call.value));
      WordSound(Log(s, ByeSent(call.value)), call.value, 0);
    }
    var transient := First(s.ops, s.list, Transient());
    if transient.Some? {
      DestroyDisconnectedSound(s, transient.value);
    }
    var unborn := First(s.ops, s.list, Embryonic());
    if unborn.Some? {
      DestroySound(s, unborn.value);
    }
  }

  lemma EndSound(s: State, id: nat, ends: bool)
    requires Sound(s) && id < |s.ops| && !s.ops[id].verb.Invite?
    ensures Sound(EndIf(s, id, ends))
  {
    assert WaitsProperly(s, id);
    if ends { DestroySound(s, id); }
  }

  lemma UnsubscribeSound(s: State, id: nat)
    requires Sound(s) && id < |s.ops|
    ensures Sound(s.(ops := s.ops[id := s.ops[id].(persistent := false)]))
  {
    var t := s.(ops := s.ops[id := s.ops[id].(persistent := false)]);
    forall x | 0 <= x < |t.ops| ensures WaitsProperly(t, x) {
      assert WaitsProperly(s, x);
    }
    forall a | a in t.log ensures Recorded(t, a) {
      assert Recorded(s, a);
    }
  }

  lemma CommandSound(s: State, c: Command, sdp: Sdp)
    requires Sound(s)
    ensures Sound(Obey(s, c, sdp))
  {
    match c
    case Call(valid, act) => StartCallSound(s, valid, act, sdp);
    case Reply(status, act) => AnswerSound(s, status, act, sdp);
    case EndCall => FoundSound(s);
    case ZapFirst => FoundSound(s);
    case Reject => FoundSound(s);
    case Send(m, valid) => CreateSound(s, m, valid);
    case SendRefer(valid) => CreateSound(s, Refer, valid);
    case SendRegister(registrar, valid) => CreateSound(s, Register, valid);
    case SendPublish(valid) => CreateSound(s, Publish, valid);
  }

  lemma EventSound(s: State, e: StackEvent, sdp: Sdp)
    requires Sound(s) && Deliverable(s, e)
    ensures Sound(Take(s, e, sdp))
  {
    match e
    case GotInvite(op, auto, act) => RingSound(s, op, auto, act, sdp);
    case GotRequest(m) => PrependSound(s, m);
    case GotRefer(sip, valid) => CreateSound(s, Invite, valid);
    case InviteResult(id, status) =>
      RecvBit(s.ops[id].word);
      WordSound(s, id, s.ops[id].word & !SENT);
    case CallReady(id) =>
      RecvBit(0);
      WordSound(s, id, ACTIVE);
    case CallTerminated(id) => HangupSound(s, id);
    case SubscribeResult(id, status) => UnsubscribeSound(s, id);
    case _ => EndSound(s, e.id, Ends(e));
  }

  lemma StepSound(s: State, e: Event, sdp: Sdp)
    requires Sound(s) && Enabled(s, e)
    ensures Sound(Step(s, e, sdp))
  {
    match e
    case Do(c) => CommandSound(s, c, sdp);
    case Got(ev) => EventSound(s, ev, sdp);
    case MediaSignal(signal) => SignalSound(s, signal, sdp);
  }

  lemma {:induction false} RunSound(s: State, events: seq<Event>, sdp: Sdp)
    requires Sound(s) && Possible(s, events, sdp)
    ensures Sound(Run(s, events, sdp))
    decreases |events|
  {
    if events != [] {
      StepSound(s, events[0], sdp);
      RunSound(Step(s, events[0], sdp), events[1..], sdp);
    }
  }

  /**
   * Over every run: each listed operation is listed once and holds its handle, and
   * whatever is created next obeys the law of creation.
   */
  lemma EveryCreation(events: seq<Event>, sdp: Sdp, m: SipMethod)
    requires Possible(Initial, events, sdp)
    ensures var s := Run(Initial, events, sdp);
            && Distinct(s.list) && (forall id :: id in s.list ==> s.ops[id].open)
            && CreationLaw(s, m)
  {
    RunSound(Initial, events, sdp);
    CreateLaw(Run(Initial, events, sdp), m);
  }

  /**
   * Over every run, with any media implementation: no operation has its INVITE
   * sent twice; it is sent only inside a callback for a local-ready or active
   * signal; and never once the operation was disconnected or its handle closed.
   */
  lemma InviteOnce(events: seq<Event>, sdp: Sdp, p: nat)
    requires Possible(Initial, events, sdp)
    requires p < |Run(Initial, events, sdp).log| && Run(Initial, events, sdp).log[p].InviteSent?
    ensures var log := Run(Initial, events, sdp).log;
            var id := log[p].op;
            && p > 0 && log[p - 1].Notified? && log[p - 1].op == id && Ready(log[p - 1].signal)
            && (forall q :: 0 <= q < |log| && q != p ==> log[q] != InviteSent(id))
            && (forall q :: 0 <= q < p ==> log[q] != Disconnected(id) && log[q] != Closed(id))
  {
    RunSound(Initial, events, sdp);
    var log := Run(Initial, events, sdp).log;
    var id := log[p].op;
    assert LawfulAt(log, p);
    forall q | 0 <= q < |log| && q != p ensures log[q] != InviteSent(id) {
      if q < p { SentOnce(log, q, p); } else if log[q].InviteSent? { SentOnce(log, p, q); }
    }
    forall q | 0 <= q < p ensures log[q] != Disconnected(id) && log[q] != Closed(id) {
      assert log[..p][q] == log[q];
    }
  }

  /** In a lawful log no INVITE is sent twice. */
  lemma SentAtMostOnce(log: seq<Action>)
    requires Lawful(log)
    ensures forall q, p :: 0 <= q < p < |log| && log[p].InviteSent? ==> log[q] != log[p]
  {
    forall q, p | 0 <= q < p < |log| && log[p].InviteSent? ensures log[q] != log[p] {
      SentOnce(log, q, p);
    }
  }

  lemma SentOnce(log: seq<Action>, q: nat, p: nat)
    requires Lawful(log) && q < p < |log| && log[p].InviteSent?
    ensures log[q] != log[p]
  {
    assert LawfulAt(log, p);
    assert log[..p][q] == log[q];
  }
}
