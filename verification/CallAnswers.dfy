/**
 * What callers are answered, and when an INVITE goes out, over every run
 * (Lab/sofsip-cli-0.16/src/ssc_sip.c:774-979).
 */
module CallAnswers {
  import opened Common
  import opened MediaStates
  import opened Calls
  import opened CallLaws
  import opened CallSafety
  import opened CallMedia
  import opened CallSteps

  // ----- the status a caller gets

  /** Some listed call waits for an answer and for nothing else. */
  predicate SomeoneWaits(s: State)
    requires Tidy(s)
  {
    exists id :: id in s.list && s.ops[id].word == 2
  }

  /** None of the first `k` listed operations waits. */
  predicate NoneWaits(s: State, k: nat)
    requires Tidy(s) && k <= |s.list|
  {
    forall j :: 0 <= j < k ==> At(s, j).word != 2
  }

  /** `id` is the first listed operation whose word is exactly 2. */
  predicate WaitsFirst(s: State, id: nat)
    requires Tidy(s)
  {
    exists k :: 0 <= k < |s.list| && s.list[k] == id && At(s, k).word == 2 && NoneWaits(s, k)
  }

  /** The status in force after the event: the latest reply that found a call, or 200 of an automatic answer. */
  function Given(given: int, s: State, e: Event): int
    requires Tidy(s) && Enabled(s, e)
  {
    match e
    case Do(Reply(status, _)) => if SomeoneWaits(s) then status else given
    case Got(GotInvite(op, auto, _)) =>
      if auto && (op.None? || s.ops[op.value].word | 2 == 2) then 200 else given
    case _ => given
  }

  /** The action is directly behind the callback of its operation for a local-ready or active signal. */
  predicate InCallback(log: seq<Action>, p: nat)
    requires p < |log|
  {
    && p > 0 && log[p - 1].Notified? && log[p - 1].op == log[p].op
    && (log[p - 1].signal == LocalReady || log[p - 1].signal == Active)
  }

  /** The status in force if there is a local SDP, and 500 otherwise; an INVITE goes out only with one. */
  predicate FromCallback(log: seq<Action>, p: nat, given: int, sdp: Sdp)
    requires p < |log| && (log[p].Responded? || log[p].InviteSent?)
  {
    && InCallback(log, p)
    && if log[p].Responded? then log[p].status == (if sdp(p - 1) then given else 500) else sdp(p - 1)
  }

  /** A refusal: the user's own negative status, for the first call that waits. */
  predicate Refusal(s: State, e: Event, a: Action)
    requires Tidy(s) && a.Responded?
  {
    && e.Do? && e.command.Reply? && !(200 <= e.command.status < 300)
    && a.status == e.command.status && WaitsFirst(s, a.op)
  }

  predicate Outgoing(a: Action) {
    a.Responded? || a.InviteSent?
  }

  /** `r` continues the log of `s`, with answers and INVITEs of callbacks alone, under one status. */
  ghost predicate Answering(s: State, r: State, sdp: Sdp) {
    && s.log <= r.log && r.answer == s.answer
    && forall p :: |s.log| <= p < |r.log| && Outgoing(r.log[p]) ==>
         p > |s.log| && FromCallback(r.log, p, s.answer, sdp)
  }

  lemma AnsweringJoins(s: State, t: State, r: State, sdp: Sdp)
    requires Answering(s, t, sdp) && Answering(t, r, sdp)
    ensures Answering(s, r, sdp)
  {
    forall p | |s.log| <= p < |r.log| && Outgoing(r.log[p])
      ensures p > |s.log| && FromCallback(r.log, p, s.answer, sdp)
    {
      if p < |t.log| {
        assert r.log[p] == t.log[p] && r.log[p - 1] == t.log[p - 1];
        assert FromCallback(t.log, p, s.answer, sdp);
      }
    }
  }

  lemma QuietAnswering(s: State, r: State, a: Action, sdp: Sdp)
    requires !Outgoing(a) && r.answer == s.answer && (r.log == s.log || r.log == s.log + [a])
    ensures Answering(s, r, sdp)
  {
  }

  lemma DismissAnswering(s: State, id: nat, sdp: Sdp)
    requires id < |s.ops|
    ensures Answering(s, Destroy(s, id), sdp) && Answering(s, DestroyDisconnected(s, id), sdp)
  {
    var t := Disconnect(s, id);
    QuietAnswering(s, Destroy(s, id), Closed(id), sdp);
    QuietAnswering(s, t, Disconnected(id), sdp);
    QuietAnswering(t, Destroy(t, id), Closed(id), sdp);
    AnsweringJoins(s, t, Destroy(t, id), sdp);
  }

  lemma {:induction false} CleanAnswering(s: State, todo: seq<nat>, sdp: Sdp)
    requires Known(s, todo)
    ensures Answering(s, Clean(s, todo), sdp)
    decreases |todo|
  {
    if todo != [] {
      assert todo[0] in todo && forall id :: id in todo[1..] ==> id in todo;
      if Keeps(s.ops[todo[0]]) {
        CleanAnswering(s, todo[1..], sdp);
      } else {
        var t := Destroy(s, todo[0]);
        DismissAnswering(s, todo[0], sdp);
        CleanAnswering(t, todo[1..], sdp);
        AnsweringJoins(s, t, Clean(t, todo[1..]), sdp);
      }
    }
  }

  lemma CreateAnswering(s: State, m: SipMethod, valid: bool, sdp: Sdp)
    requires Tidy(s)
    ensures Answering(s, Create(s, m, valid), sdp)
  {
    var t := Prepend(s, m);
    CleanAnswering(t, s.list, sdp);
  }

  lemma RespondAnswering(s: State, id: nat, signal: MediaState, sdp: Sdp)
    requires id < |s.ops| && Ready(signal)
    ensures Answering(s, Respond(Log(s, Notified(id, signal)), id, sdp(|s.log|)), sdp)
  {
    var t := Log(s, Notified(id, signal));
    var r := Respond(t, id, sdp(|s.log|));
    assert r.log == s.log + [Notified(id, signal)] + [Responded(id, if sdp(|s.log|) then s.answer else 500)];
  }

  lemma OfferAnswering(s: State, id: nat, signal: MediaState, sdp: Sdp)
    requires id < |s.ops| && Ready(signal)
    ensures Answering(s, Offer(Log(s, Notified(id, signal)), id, sdp(|s.log|)), sdp)
  {
    var t := Log(s, Notified(id, signal));
    if sdp(|s.log|) {
      var r := Offer(t, id, true);
      assert r.log == s.log + [Notified(id, signal)] + [InviteSent(id)];
    } else {
      var u := SetWord(t, id, 0);
      QuietAnswering(s, u, Notified(id, signal), sdp);
      DismissAnswering(u, id, sdp);
      AnsweringJoins(s, u, DestroyDisconnected(u, id), sdp);
    }
  }

  lemma CallbackAnswering(s: State, id: nat, signal: MediaState, sdp: Sdp)
    requires id < |s.ops|
    ensures Answering(s, Callback(s, id, signal, sdp), sdp)
  {
    var t, r := Log(s, Notified(id, signal)), Callback(s, id, signal, sdp);
    QuietAnswering(s, t, Notified(id, signal), sdp);
    if Ready(signal) && Has(t.ops[id].word, PENDING) && t.media != Disabled {
      OfferAnswering(s, id, signal, sdp);
    } else if Ready(signal) && Has(t.ops[id].word, RECV) {
      RespondAnswering(s, id, signal, sdp);
    } else if signal.Error? {
      DismissAnswering(t.(media := Disabled), id, sdp);
      AnsweringJoins(s, t, r, sdp);
    }
  }

  lemma {:induction false} EmitAnswering(s: State, signal: MediaState, todo: seq<nat>, sdp: Sdp)
    requires Known(s, todo)
    ensures Answering(s, Emit(s, signal, todo, sdp), sdp)
    decreases |todo|
  {
    if todo != [] {
      assert todo[0] in todo && forall id :: id in todo[1..] ==> id in todo;
      if todo[0] in s.watchers {
        var t := Callback(s, todo[0], signal, sdp);
        CallbackAnswering(s, todo[0], signal, sdp);
        EmitAnswering(t, signal, todo[1..], sdp);
        AnsweringJoins(s, t, Emit(t, signal, todo[1..], sdp), sdp);
      } else {
        EmitAnswering(s, signal, todo[1..], sdp);
      }
    }
  }

  lemma {:induction false} SignalsAnswering(s: State, signals: seq<MediaState>, sdp: Sdp)
    requires Known(s, s.watchers)
    ensures Answering(s, Signals(s, signals, sdp), sdp)
    decreases |signals|
  {
    if signals != [] {
      var t := Signal(s, signals[0], sdp);
      SignalAnswering(s, signals[0], sdp);
      SignalsAnswering(t, signals[1..], sdp);
      AnsweringJoins(s, t, Signals(t, signals[1..], sdp), sdp);
    }
  }

  lemma SignalAnswering(s: State, signal: MediaState, sdp: Sdp)
    requires Known(s, s.watchers)
    ensures Answering(s, Signal(s, signal, sdp), sdp)
  {
    EmitAnswering(s.(media := signal), signal, s.watchers, sdp);
  }

  lemma ActivateAnswering(s: State, id: nat, act: Activation, sdp: Sdp)
    requires id < |s.ops| && Tidy(s)
    ensures Answering(s, Activate(s, id, act, sdp), sdp)
  {
    var t := Connect(s, id);
    var u := Signals(t, act.signals, sdp);
    QuietAnswering(s, t, Connected(id), sdp);
    SignalsAnswering(t, act.signals, sdp);
    AnsweringJoins(s, t, u, sdp);
    DismissAnswering(u, id, sdp);
    if act.failed {
      AnsweringJoins(s, u, DestroyDisconnected(u, id), sdp);
    }
  }

  lemma StartCallAnswering(s: State, valid: bool, act: Activation, sdp: Sdp)
    requires Tidy(s)
    ensures Answering(s, StartCall(s, valid, act, sdp), sdp)
  {
    if valid {
      var id, t := |s.ops|, Create(s, Invite, true);
      var u := SetWord(t, id, t.ops[id].word | PENDING);
      CreateAnswering(s, Invite, true, sdp);
      ActivateAnswering(u, id, act, sdp);
      AnsweringJoins(s, u, Activate(u, id, act, sdp), sdp);
    }
  }

  /** The answers of one event: from callbacks under the status in force, or the refusal at its beginning. */
  ghost predicate AnswersOf(s: State, r: State, e: Event, given: int, sdp: Sdp)
    requires Tidy(s)
  {
    && s.log <= r.log
    && forall p :: |s.log| <= p < |r.log| && Outgoing(r.log[p]) ==>
         if p == |s.log| then r.log[p].Responded? && Refusal(s, e, r.log[p]) else FromCallback(r.log, p, given, sdp)
  }

  lemma {:induction false} FirstWaiting(s: State, k: nat)
    requires Tidy(s) && k <= |s.list| && NoneWaits(s, k)
    ensures var found := First(s.ops, s.list, Unanswered());
            found.Some? <==> exists id :: id in s.list && s.ops[id].word == 2
    ensures var found := First(s.ops, s.list, Unanswered());
            found.Some? ==> WaitsFirst(s, found.value)
    decreases |s.list| - k
  {
    if k == |s.list| {
      FindsAt(s, Unanswered(), k);
      forall id | id in s.list ensures s.ops[id].word != 2 {
        var j :| 0 <= j < |s.list| && s.list[j] == id;
        assert At(s, j).word != 2;
      }
    } else if At(s, k).word == 2 {
      FindsAt(s, Unanswered(), k);
      assert s.list[k] in s.list;
    } else {
      FirstWaiting(s, k + 1);
    }
  }

  lemma ReplyAnswers(s: State, status: int, act: Activation, sdp: Sdp)
    requires Tidy(s)
    ensures var r := Answer(s, status, act, sdp);
            && r.answer == (if SomeoneWaits(s) then status else s.answer)
            && AnswersOf(s, r, Do(Reply(status, act)), r.answer, sdp)
  {
    FirstWaiting(s, 0);
    var found, t := First(s.ops, s.list, Unanswered()), s.(answer := status);
    if found.Some? {
      if Success(status) {
        ActivateAnswering(t, found.value, act, sdp);
      } else {
        RefuseAnswers(t, found.value, status, sdp);
        assert WaitsFirst(s, found.value);
      }
    }
  }

  lemma RefuseAnswers(s: State, id: nat, status: int, sdp: Sdp)
    requires id < |s.ops|
    ensures var r := DestroyDisconnected(Log(s, Responded(id, status)), id);
            && s.log + [Responded(id, status)] <= r.log && r.answer == s.answer
            && forall p :: |s.log| < p < |r.log| && Outgoing(r.log[p]) ==> FromCallback(r.log, p, s.answer, sdp)
  {
    DismissAnswering(Log(s, Responded(id, status)), id, sdp);
  }

  lemma RingAnswers(s: State, op: Option<nat>, auto: bool, act: Activation, sdp: Sdp)
    requires Tidy(s) && (op.Some? ==> op.value in s.list)
    ensures var r, e := Ring(s, op, auto, act, sdp), Got(GotInvite(op, auto, act));
            r.answer == Given(s.answer, s, e) && AnswersOf(s, r, e, r.answer, sdp)
  {
    var t := IncomingCall(s, op);
    var id := if op.Some? then op.value else |s.ops|;
    if t.ops[id].word == RECV && auto {
      assert id in t.list by {
        if op.None? { assert t.list[0] == id; }
      }
      ReplyAnswers(t, 200, act, sdp);
      assert SomeoneWaits(t);
    }
  }

  lemma OtherAnswering(s: State, e: Event, sdp: Sdp)
    requires Tidy(s) && Enabled(s, e)
    requires !(e.Do? && e.command.Reply?) && !(e.Got? && e.event.GotInvite?)
    ensures Answering(s, Step(s, e, sdp), sdp)
  {
    match e
    case Do(c) => CommandAnswering(s, c, sdp);
    case Got(ev) => EventAnswering(s, ev, sdp);
    case MediaSignal(signal) => SignalAnswering(s, signal, sdp);
  }

  lemma CommandAnswering(s: State, c: Command, sdp: Sdp)
    requires Tidy(s) && !c.Reply?
    ensures Answering(s, Obey(s, c, sdp), sdp)
  {
    match c
    case Call(valid, act) => StartCallAnswering(s, valid, act, sdp);
    case EndCall =>
      var found := First(s.ops, s.list, InCall());
      if found.Some? { QuietAnswering(s, Bye(s), ByeSent(found.value), sdp); }
    case ZapFirst =>
      var found := First(s.ops, s.list, Transient());
      if found.Some? { DismissAnswering(s, found.value, sdp); }
    case Reject =>
      var found := First(s.ops, s.list, Embryonic());
      if found.Some? { DismissAnswering(s, found.value, sdp); }
    case Send(m, valid) => CreateAnswering(s, m, valid, sdp);
    case SendRefer(valid) => CreateAnswering(s, Refer, valid, sdp);
    case SendRegister(registrar, valid) => CreateAnswering(s, Register, valid, sdp);
    case SendPublish(valid) => CreateAnswering(s, Publish, valid, sdp);
  }

  lemma EventAnswering(s: State, e: StackEvent, sdp: Sdp)
    requires Tidy(s) && Deliverable(s, e) && !e.GotInvite?
    ensures Answering(s, Take(s, e, sdp), sdp)
  {
    if e.GotRefer? {
      CreateAnswering(s, Invite, e.valid, sdp);
    } else if e.CallTerminated? {
      DismissAnswering(SetWord(s, e.id, 0), e.id, sdp);
    } else if !e.GotRequest? {
      DismissAnswering(s, e.id, sdp);
    }
  }

  lemma StepAnswers(s: State, e: Event, sdp: Sdp)
    requires Tidy(s) && Enabled(s, e)
    ensures var r := Step(s, e, sdp);
            r.answer == Given(s.answer, s, e) && AnswersOf(s, r, e, r.answer, sdp)
  {
    if e.Do? && e.command.Reply? {
      ReplyAnswers(s, e.command.status, e.command.act, sdp);
    } else if e.Got? && e.event.GotInvite? {
      RingAnswers(s, e.event.op, e.event.auto, e.event.act, sdp);
    } else {
      OtherAnswering(s, e, sdp);
    }
  }

  /** Every answer and INVITE of the run is one of its event's, under the status in force then. */
  ghost predicate AllAnswers(s: State, given: int, events: seq<Event>, sdp: Sdp)
    requires Tidy(s) && Possible(s, events, sdp)
    decreases |events|
  {
    events == [] ||
    (var r, next := Step(s, events[0], sdp), Given(given, s, events[0]);
     AnswersOf(s, r, events[0], next, sdp) && AllAnswers(r, next, events[1..], sdp))
  }

  lemma {:induction false} RunAnswers(s: State, events: seq<Event>, sdp: Sdp)
    requires Tidy(s) && Possible(s, events, sdp)
    ensures AllAnswers(s, s.answer, events, sdp)
    decreases |events|
  {
    if events != [] {
      StepAnswers(s, events[0], sdp);
      RunAnswers(Step(s, events[0], sdp), events[1..], sdp);
    }
  }

  /**
   * Over every run, with any media implementation: a caller is answered behind a callback for a local-ready
   * or active signal, with the status of the latest reply that found a call (200 for an automatic one) if
   * there is a local SDP and 500 otherwise; or refused, with the user's status, as the first that waits.
   * An INVITE goes out behind such a callback too, and only with a local SDP.
   */
  lemma EveryAnswer(events: seq<Event>, sdp: Sdp)
    requires Possible(Initial, events, sdp)
    ensures AllAnswers(Initial, 0, events, sdp)
  {
    RunAnswers(Initial, events, sdp);
  }
}
