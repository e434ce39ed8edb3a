/**
 * Calls over the base media implementation, whose activation succeeds and signals
 * active (Lab/sofsip-cli-0.16/src/ssc_media.c:260-299): the call-state words that
 * occur, and when media is active.
 */
module CallMedia {
  import opened Common
  import opened MediaStates
  import opened Calls
  import opened CallLaws
  import opened CallSafety

  /** The command or event involves no other media implementation. */
  predicate BaseCommand(c: Command) {
    c.Call? || c.Reply? ==> c.act == BaseActivation
  }

  predicate BaseEvent(e: StackEvent) {
    e.GotInvite? ==> e.act == BaseActivation
  }

  predicate Base(e: Event) {
    match e
    case Do(c) => BaseCommand(c)
    case Got(ev) => BaseEvent(ev)
    case MediaSignal(_) => false
  }

  predicate AllBase(events: seq<Event>) {
    forall i :: 0 <= i < |events| ==> Base(events[i])
  }

  lemma SignalsOnce(s: State, sdp: Sdp)
    requires Known(s, s.watchers)
    ensures Signals(s, BaseActivation.signals, sdp) == Signal(s, Active, sdp)
  {
    var t := Signal(s, Active, sdp);
    assert [Active][1..] == [];
    assert Signals(t, [], sdp) == t;
  }

  lemma SameVerbs(s: seq<Op>, t: seq<Op>, list: seq<nat>)
    requires |s| == |t| && forall id :: 0 <= id < |s| ==> t[id].verb == s[id].verb
    ensures HasInvite(s, list) == HasInvite(t, list)
  {
  }

  /** A destroy lets an INVITE stay only if one was there. */
  lemma InvitesShrink(s: State, id: nat)
    requires id < |s.ops|
    ensures var r := Destroy(s, id);
            && (HasInvite(r.ops, r.list) ==> HasInvite(s.ops, s.list) && r.media == s.media)
            && (!HasInvite(r.ops, r.list) ==> r.media == Disabled)
  {
    var t := CloseHandle(s, id);
    SameVerbs(s.ops, t.ops, t.list);
  }

  // ----- call-state words -----

  /** The values of op_callstate that occur. */
  predicate Legal(word: bv8) {
    || word == 0 || word == 1 || word == 2 || word == 3 || word == 4
    || word == 6 || word == 7 || word == 16 || word == 18
  }

  lemma LegalMeans(word: bv8)
    requires Legal(word)
    ensures Has(word, PENDING) ==> !Has(word, SENT) && !Has(word, ACTIVE)
    ensures Has(word, SENT) && Has(word, ACTIVE) ==> Has(word, RECV)
  {
  }

  lemma LegalMoves(word: bv8)
    requires Legal(word)
    ensures Legal(word | RECV) && Legal(word & !SENT)
    ensures Has(word, RECV) && !Has(word, PENDING) ==> Legal(word | SENT)
    ensures Legal(0) && Legal(0 | PENDING) && Legal(SENT) && Legal(RECV) && Legal(ACTIVE)
  {
  }

  predicate Words(s: State) {
    forall id :: 0 <= id < |s.ops| ==> Legal(s.ops[id].word)
  }

  lemma WordLegal(s: State, id: nat, word: bv8)
    requires Words(s) && id < |s.ops| && Legal(word)
    ensures Words(SetWord(s, id, word))
    ensures HasInvite(SetWord(s, id, word).ops, s.list) == HasInvite(s.ops, s.list)
  {
    SameVerbs(s.ops, SetWord(s, id, word).ops, s.list);
  }

  lemma DestroyWords(s: State, id: nat)
    requires Words(s) && id < |s.ops|
    ensures Words(Destroy(s, id)) && Words(DestroyDisconnected(s, id))
  {
  }

  /** While a signal is emitted, media is up as long as a call is there. */
  predicate Emitting(s: State) {
    s.media == Disabled ==> !HasInvite(s.ops, s.list)
  }

  lemma DestroyEmitting(s: State, id: nat)
    requires Emitting(s) && id < |s.ops|
    ensures Emitting(DestroyDisconnected(s, id))
  {
    InvitesShrink(Disconnect(s, id), id);
  }

  lemma OfferWords(s: State, id: nat, sdp: bool)
    requires Words(s) && Emitting(s) && id < |s.ops|
    ensures Words(Offer(s, id, sdp)) && Emitting(Offer(s, id, sdp))
  {
    LegalMoves(0);
    if sdp {
      WordLegal(Log(s, InviteSent(id)), id, SENT);
    } else {
      WordLegal(s, id, 0);
      DestroyWords(SetWord(s, id, 0), id);
      DestroyEmitting(SetWord(s, id, 0), id);
    }
  }

  lemma RespondWords(s: State, id: nat, sdp: bool)
    requires Words(s) && Emitting(s) && id < |s.ops|
    requires Has(s.ops[id].word, RECV) && !Has(s.ops[id].word, PENDING)
    ensures Words(Respond(s, id, sdp)) && Emitting(Respond(s, id, sdp))
  {
    LegalMoves(s.ops[id].word);
    var status := if sdp then s.answer else 500;
    var word := if sdp && Success(s.answer) then s.ops[id].word | SENT else 0;
    WordLegal(Log(s, Responded(id, status)), id, word);
  }

  lemma CallbackWords(s: State, id: nat, sdp: Sdp)
    requires Sound(s) && Words(s) && Emitting(s) && id < |s.ops| && id in s.watchers
    ensures Words(Callback(s, id, Active, sdp)) && Emitting(Callback(s, id, Active, sdp))
  {
    var t := Log(s, Notified(id, Active));
    if Pending(t, id) {
      assert WaitsProperly(s, id);
      assert t.media != Disabled;
      OfferWords(t, id, sdp(|s.log|));
    } else if Has(t.ops[id].word, RECV) {
      RespondWords(t, id, sdp(|s.log|));
    }
  }

  lemma {:induction false} EmitWords(s: State, todo: seq<nat>, sdp: Sdp)
    requires Sound(s) && Words(s) && Emitting(s) && Known(s, todo)
    ensures Words(Emit(s, Active, todo, sdp))
    decreases |todo|
  {
    if todo != [] {
      assert todo[0] in todo && forall id :: id in todo[1..] ==> id in todo;
      if todo[0] in s.watchers {
        CallbackWords(s, todo[0], sdp);
        CallbackSound(s, todo[0], Active, sdp);
        EmitWords(Callback(s, todo[0], Active, sdp), todo[1..], sdp);
      } else {
        EmitWords(s, todo[1..], sdp);
      }
    }
  }

  lemma ActivateWords(s: State, id: nat, sdp: Sdp)
    requires Sound(s) && Words(s) && id in s.list
    ensures Words(Activate(s, id, BaseActivation, sdp))
  {
    var t := Connect(s, id);
    ConnectSound(s, id);
    SignalsOnce(t, sdp);
    if t.media != Active {
      MediaSound(t, Active);
      EmitWords(t.(media := Active), t.watchers, sdp);
    }
  }

  lemma {:induction false} CleanWords(s: State, todo: seq<nat>)
    requires Words(s) && Known(s, todo)
    ensures Words(Clean(s, todo))
    decreases |todo|
  {
    if todo != [] {
      assert todo[0] in todo && forall id :: id in todo[1..] ==> id in todo;
      DestroyWords(s, todo[0]);
      CleanWords(if Keeps(s.ops[todo[0]]) then s else Destroy(s, todo[0]), todo[1..]);
    }
  }

  lemma CreateWords(s: State, m: SipMethod, valid: bool)
    requires Tidy(s) && Words(s)
    ensures Words(Create(s, m, valid))
  {
    var t := Prepend(s, m);
    assert Words(t);
    CleanWords(t, s.list);
  }

  lemma StartCallWords(s: State, valid: bool, sdp: Sdp)
    requires Sound(s) && Words(s)
    ensures Words(StartCall(s, valid, BaseActivation, sdp))
  {
    if valid {
      var id, t := |s.ops|, Create(s, Invite, true);
      CreateWords(s, Invite, true);
      CreateSound(s, Invite, true);
      CreateLaw(s, Invite);
      ClosingsOnly(Dropped(s.ops, s.list));
      FreshUnsent(s, t);
      assert t.list[0] == id;
      LegalMoves(0);
      StartSound(t, id, 0 | PENDING);
      WordLegal(t, id, 0 | PENDING);
      ActivateWords(SetWord(t, id, 0 | PENDING), id, sdp);
    }
  }

  lemma AnswerWords(s: State, status: int, sdp: Sdp)
    requires Sound(s) && Words(s)
    ensures Words(Answer(s, status, BaseActivation, sdp))
  {
    var t := s.(answer := status);
    AnswerFieldSound(s, status);
    var found := First(s.ops, s.list, Unanswered());
    if found.Some? {
      if Success(status) {
        ActivateWords(t, found.value, sdp);
      } else {
        DestroyWords(Log(t, Responded(found.value, status)), found.value);
      }
    }
  }

  lemma IncomingWords(s: State, op: Option<nat>)
    requires Words(s) && (op.Some? ==> op.value < |s.ops|)
    ensures Words(IncomingCall(s, op))
  {
    LegalMoves(if op.Some? then s.ops[op.value].word else 0);
  }

  lemma CommandWords(s: State, c: Command, sdp: Sdp)
    requires Sound(s) && Words(s) && BaseCommand(c)
    ensures Words(Obey(s, c, sdp))
  {
    LegalMoves(0);
    match c
    case Call(valid, act) => StartCallWords(s, valid, sdp);
    case Reply(status, act) => AnswerWords(s, status, sdp);
    case EndCall =>
    case ZapFirst =>
      var found := First(s.ops, s.list, Transient());
      if found.Some? { DestroyWords(s, found.value); }
    case Reject =>
      var found := First(s.ops, s.list, Embryonic());
      if found.Some? { DestroyWords(s, found.value); }
    case Send(m, valid) => CreateWords(s, m, valid);
    case SendRefer(valid) => CreateWords(s, Refer, valid);
    case SendRegister(registrar, valid) => CreateWords(s, Register, valid);
    case SendPublish(valid) => CreateWords(s, Publish, valid);
  }

  lemma RingWords(s: State, op: Option<nat>, auto: bool, sdp: Sdp)
    requires Sound(s) && Words(s) && (op.Some? ==> op.value in s.list)
    ensures Words(Ring(s, op, auto, BaseActivation, sdp))
  {
    IncomingSound(s, op);
    IncomingWords(s, op);
    AnswerWords(IncomingCall(s, op), 200, sdp);
  }

  lemma EventWords(s: State, e: StackEvent, sdp: Sdp)
    requires Sound(s) && Words(s) && Deliverable(s, e) && BaseEvent(e)
    ensures Words(Take(s, e, sdp))
  {
    LegalMoves(0);
    match e
    case GotInvite(op, auto, act) => RingWords(s, op, auto, sdp);
    case GotRequest(m) =>
    case GotRefer(sip, valid) => CreateWords(s, Invite, valid);
    case InviteResult(id, status) =>
      LegalMoves(s.ops[id].word);
    case CallReady(id) =>
    case CallTerminated(id) =>
      DestroyWords(SetWord(s, id, 0), id);
    case SubscribeResult(id, status) =>
    case _ => EndWords(s, e.id, Ends(e));
  }

  lemma EndWords(s: State, id: nat, ends: bool)
    requires Tidy(s) && Words(s) && id < |s.ops|
    ensures Words(EndIf(s, id, ends))
  {
    DestroyWords(s, id);
  }

  lemma StepWords(s: State, e: Event, sdp: Sdp)
    requires Sound(s) && Words(s) && Enabled(s, e) && Base(e)
    ensures Words(Step(s, e, sdp))
  {
    match e
    case Do(c) => CommandWords(s, c, sdp);
    case Got(ev) => EventWords(s, ev, sdp);
    case MediaSignal(signal) =>
  }

  lemma {:induction false} RunWords(s: State, events: seq<Event>, sdp: Sdp)
    requires Sound(s) && Words(s) && Possible(s, events, sdp) && AllBase(events)
    ensures Words(Run(s, events, sdp))
    decreases |events|
  {
    if events != [] {
      StepWords(s, events[0], sdp);
      StepSound(s, events[0], sdp);
      RunWords(Step(s, events[0], sdp), events[1..], sdp);
    }
  }

  /** Over every run, the word of every operation is one of nine. */
  lemma CallWords(events: seq<Event>, sdp: Sdp, id: nat)
    requires Possible(Initial, events, sdp) && AllBase(events)
    requires id < |Run(Initial, events, sdp).ops|
    ensures var word := Run(Initial, events, sdp).ops[id].word;
            && Legal(word)
            && (Has(word, PENDING) ==> !Has(word, SENT) && !Has(word, ACTIVE))
            && (Has(word, SENT) && Has(word, ACTIVE) ==> Has(word, RECV))
  {
    RunWords(Initial, events, sdp);
    LegalMeans(Run(Initial, events, sdp).ops[id].word);
  }

  // ----- media follows the calls -----

  /** No INVITE listed: media is down, or was never up and no handle was ever closed. */
  ghost predicate Follows(s: State) {
    HasInvite(s.ops, s.list) || s.media == Disabled ||
    (s.media == Init && forall id :: Closed(id) !in s.log)
  }

  lemma NoteFollows(s: State, a: Action)
    requires Follows(s) && !a.Closed?
    ensures Follows(Log(s, a))
  {
    LogIn(s, a);
  }

  lemma WordFollows(s: State, id: nat, word: bv8)
    requires Follows(s) && id < |s.ops|
    ensures Follows(SetWord(s, id, word))
  {
    SameVerbs(s.ops, SetWord(s, id, word).ops, s.list);
  }

  lemma DestroyFollows(s: State, id: nat)
    requires Follows(s) && id < |s.ops|
    ensures Follows(Destroy(s, id)) && Follows(DestroyDisconnected(s, id))
  {
    InvitesShrink(s, id);
    InvitesShrink(Disconnect(s, id), id);
  }

  lemma PrependFollows(s: State, m: SipMethod)
    requires Follows(s) && Tidy(s)
    ensures Follows(Prepend(s, m))
    ensures HasInvite(s.ops, s.list) || m.Invite? ==> HasInvite(Prepend(s, m).ops, Prepend(s, m).list)
  {
    var t := Prepend(s, m);
    if HasInvite(s.ops, s.list) {
      var id :| id in s.list && id < |s.ops| && s.ops[id].verb.Invite?;
      assert id in t.list && t.ops[id].verb.Invite?;
    }
    assert t.list[0] == |s.ops| && t.ops[|s.ops|].verb == m;
  }

  lemma {:induction false} CleanFollows(s: State, todo: seq<nat>)
    requires Follows(s) && Known(s, todo)
    ensures Follows(Clean(s, todo))
    decreases |todo|
  {
    if todo != [] {
      assert todo[0] in todo && forall id :: id in todo[1..] ==> id in todo;
      DestroyFollows(s, todo[0]);
      CleanFollows(if Keeps(s.ops[todo[0]]) then s else Destroy(s, todo[0]), todo[1..]);
    }
  }

  lemma CreateFollows(s: State, m: SipMethod, valid: bool)
    requires Follows(s) && Tidy(s)
    ensures Follows(Create(s, m, valid))
  {
    PrependFollows(s, m);
    CleanFollows(Prepend(s, m), s.list);
  }

  lemma RespondFollows(s: State, id: nat, sdp: bool)
    requires Follows(s) && id < |s.ops|
    ensures Follows(Respond(s, id, sdp))
  {
    var status := if sdp then s.answer else 500;
    var word := if sdp && Success(s.answer) then s.ops[id].word | SENT else 0;
    NoteFollows(s, Responded(id, status));
    WordFollows(Log(s, Responded(id, status)), id, word);
  }

  lemma OfferFollows(s: State, id: nat, sdp: bool)
    requires Follows(s) && id < |s.ops|
    ensures Follows(Offer(s, id, sdp))
  {
    WordFollows(s, id, 0);
    DestroyFollows(SetWord(s, id, 0), id);
    NoteFollows(s, InviteSent(id));
    WordFollows(Log(s, InviteSent(id)), id, SENT);
  }

  lemma CallbackFollows(s: State, id: nat, sdp: Sdp)
    requires Follows(s) && id < |s.ops|
    ensures Follows(Callback(s, id, Active, sdp))
  {
    var t := Log(s, Notified(id, Active));
    NoteFollows(s, Notified(id, Active));
    OfferFollows(t, id, sdp(|s.log|));
    RespondFollows(t, id, sdp(|s.log|));
  }

  lemma {:induction false} EmitFollows(s: State, todo: seq<nat>, sdp: Sdp)
    requires Follows(s) && Known(s, todo)
    ensures Follows(Emit(s, Active, todo, sdp))
    decreases |todo|
  {
    if todo != [] {
      assert todo[0] in todo && forall id :: id in todo[1..] ==> id in todo;
      if todo[0] in s.watchers {
        CallbackFollows(s, todo[0], sdp);
        EmitFollows(Callback(s, todo[0], Active, sdp), todo[1..], sdp);
      } else {
        EmitFollows(s, todo[1..], sdp);
      }
    }
  }

  // ----- an answer without a call -----

  /** Media is up and no INVITE is listed. */
  predicate Alone(s: State) {
    s.media == Active && !HasInvite(s.ops, s.list)
  }

  /** Without a listed INVITE no callback waits for media, so the callback only answers. */
  lemma CallbackAlone(s: State, id: nat, sdp: Sdp)
    requires Sound(s) && Alone(s) && id < |s.ops| && id in s.watchers
    ensures Alone(Callback(s, id, Active, sdp))
  {
    assert WaitsProperly(s, id);
    var t := Log(s, Notified(id, Active));
    assert !Pending(t, id);
    var r := Respond(t, id, sdp(|s.log|));
    SameVerbs(s.ops, r.ops, s.list);
  }

  lemma {:induction false} EmitAlone(s: State, todo: seq<nat>, sdp: Sdp)
    requires Sound(s) && Alone(s) && Known(s, todo)
    ensures Alone(Emit(s, Active, todo, sdp))
    decreases |todo|
  {
    if todo != [] {
      assert todo[0] in todo && forall id :: id in todo[1..] ==> id in todo;
      if todo[0] in s.watchers {
        CallbackAlone(s, todo[0], sdp);
        CallbackSound(s, todo[0], Active, sdp);
        EmitAlone(Callback(s, todo[0], Active, sdp), todo[1..], sdp);
      } else {
        EmitAlone(s, todo[1..], sdp);
      }
    }
  }

  /** An activation leaves media up alone exactly when no INVITE is listed. */
  lemma ActivateDecides(s: State, id: nat, sdp: Sdp)
    requires Sound(s) && Follows(s) && id in s.list
    ensures var r := Activate(s, id, BaseActivation, sdp);
            if HasInvite(s.ops, s.list) then Follows(r) else Alone(r)
  {
    var t := Connect(s, id);
    ConnectSound(s, id);
    SignalsOnce(t, sdp);
    LogIn(s.(watchers := t.watchers), Connected(id));
    if t.media != Active {
      MediaSound(t, Active);
      if HasInvite(s.ops, s.list) {
        EmitFollows(t.(media := Active), t.watchers, sdp);
      } else {
        EmitAlone(t.(media := Active), t.watchers, sdp);
      }
    }
  }

  lemma StartCallFollows(s: State, valid: bool, sdp: Sdp)
    requires Sound(s) && Follows(s)
    ensures Follows(StartCall(s, valid, BaseActivation, sdp))
  {
    if valid {
      var id, t := |s.ops|, Create(s, Invite, true);
      CreateFollows(s, Invite, true);
      CreateSound(s, Invite, true);
      CreateLaw(s, Invite);
      ClosingsOnly(Dropped(s.ops, s.list));
      FreshUnsent(s, t);
      assert t.list[0] == id;
      StartSound(t, id, 0 | PENDING);
      WordFollows(t, id, 0 | PENDING);
      var u := SetWord(t, id, 0 | PENDING);
      assert id in u.list && u.ops[id].verb.Invite?;
      ActivateDecides(u, id, sdp);
    }
  }

  /** A positive answer to a call while no INVITE is listed. */
  predicate AnsweredAlone(s: State, status: int) {
    Success(status) && First(s.ops, s.list, Unanswered()).Some? && !HasInvite(s.ops, s.list)
  }

  lemma AnswerDecides(s: State, status: int, sdp: Sdp)
    requires Sound(s) && Follows(s)
    ensures var r := Answer(s, status, BaseActivation, sdp);
            if AnsweredAlone(s, status) then Alone(r) else Follows(r)
  {
    var t := s.(answer := status);
    AnswerFieldSound(s, status);
    assert Follows(t);
    var found := First(s.ops, s.list, Unanswered());
    if found.Some? {
      if Success(status) {
        ActivateDecides(t, found.value, sdp);
      } else {
        NoteFollows(t, Responded(found.value, status));
        DestroyFollows(Log(t, Responded(found.value, status)), found.value);
      }
    }
  }

  lemma IncomingFollows(s: State, op: Option<nat>)
    requires Tidy(s) && Follows(s) && (op.Some? ==> op.value < |s.ops|)
    ensures Follows(IncomingCall(s, op))
    ensures HasInvite(IncomingCall(s, op).ops, IncomingCall(s, op).list) <==> op.None? || HasInvite(s.ops, s.list)
  {
    if op.Some? {
      WordFollows(s, op.value, s.ops[op.value].word | RECV);
      SameVerbs(s.ops, SetWord(s, op.value, s.ops[op.value].word | RECV).ops, s.list);
    } else {
      var t := Prepend(s, Invite);
      PrependFollows(s, Invite);
      WordFollows(t, |s.ops|, RECV);
      SameVerbs(t.ops, SetWord(t, |s.ops|, RECV).ops, t.list);
    }
  }

  lemma {:induction false} FirstFinds(ops: seq<Op>, list: seq<nat>, wanted: Op -> bool, id: nat)
    requires id in list && id < |ops| && wanted(ops[id])
    ensures First(ops, list, wanted).Some?
  {
    if list[0] != id {
      FirstFinds(ops, list[1..], wanted, id);
    }
  }

  /** An automatic answer to an INVITE that came on an operation outside a call, with no INVITE listed. */
  predicate RungAlone(s: State, op: Option<nat>, auto: bool)
    requires op.Some? ==> op.value < |s.ops|
  {
    auto && op.Some? && s.ops[op.value].word | RECV == RECV && !HasInvite(s.ops, s.list)
  }

  lemma RingDecides(s: State, op: Option<nat>, auto: bool, sdp: Sdp)
    requires Sound(s) && Follows(s) && (op.Some? ==> op.value in s.list)
    ensures var r := Ring(s, op, auto, BaseActivation, sdp);
            if RungAlone(s, op, auto) then Alone(r) else Follows(r)
  {
    var t := IncomingCall(s, op);
    IncomingSound(s, op);
    IncomingFollows(s, op);
    AnswerDecides(t, 200, sdp);
    if RungAlone(s, op, auto) {
      FirstFinds(t.ops, t.list, Unanswered(), op.value);
    }
  }

  lemma HangupFollows(s: State, id: nat)
    requires Tidy(s) && Follows(s) && id < |s.ops|
    ensures Follows(Hangup(s, id))
  {
    WordFollows(s, id, 0);
    DestroyFollows(SetWord(s, id, 0), id);
  }

  lemma FoundFollows(s: State)
    requires Tidy(s) && Follows(s)
    ensures Follows(Bye(s)) && Follows(Zap(s)) && Follows(Decline(s))
  {
    var call := First(s.ops, s.list, InCall());
    if call.Some? {
      NoteFollows(s, ByeSent(call.value));
      WordFollows(Log(s, ByeSent(call.value)), call.value, 0);
    }
    var transient := First(s.ops, s.list, Transient());
    if transient.Some? { DestroyFollows(s, transient.value); }
    var unborn := First(s.ops, s.list, Embryonic());
    if unborn.Some? { DestroyFollows(s, unborn.value); }
  }

  lemma UnsubscribeFollows(s: State, id: nat)
    requires Follows(s) && id < |s.ops|
    ensures Follows(s.(ops := s.ops[id := s.ops[id].(persistent := false)]))
  {
    SameVerbs(s.ops, s.ops[id := s.ops[id].(persistent := false)], s.list);
  }

  /** The event answers a call, by command or automatically, while no INVITE is listed. */
  predicate AnswersAlone(s: State, e: Event)
    requires Tidy(s) && Enabled(s, e)
  {
    || (e.Do? && e.command.Reply? && AnsweredAlone(s, e.command.status))
    || (e.Got? && e.event.GotInvite? && RungAlone(s, e.event.op, e.event.auto))
  }

  lemma CommandDecides(s: State, c: Command, sdp: Sdp)
    requires Sound(s) && Follows(s) && BaseCommand(c)
    ensures if c.Reply? && AnsweredAlone(s, c.status) then Alone(Obey(s, c, sdp)) else Follows(Obey(s, c, sdp))
  {
    match c
    case Call(valid, act) => StartCallFollows(s, valid, sdp);
    case Reply(status, act) => AnswerDecides(s, status, sdp);
    case EndCall => FoundFollows(s);
    case ZapFirst => FoundFollows(s);
    case Reject => FoundFollows(s);
    case Send(m, valid) => CreateFollows(s, m, valid);
    case SendRefer(valid) => CreateFollows(s, Refer, valid);
    case SendRegister(registrar, valid) => CreateFollows(s, Register, valid);
    case SendPublish(valid) => CreateFollows(s, Publish, valid);
  }

  lemma EndFollows(s: State, id: nat, ends: bool)
    requires Tidy(s) && Follows(s) && id < |s.ops|
    ensures Follows(EndIf(s, id, ends))
  {
    DestroyFollows(s, id);
  }

  lemma EventFollows(s: State, e: StackEvent, sdp: Sdp)
    requires Tidy(s) && Follows(s) && Deliverable(s, e) && !e.GotInvite?
    ensures Follows(Take(s, e, sdp))
  {
    match e
    case GotRequest(m) => PrependFollows(s, m);
    case GotRefer(sip, valid) => CreateFollows(s, Invite, valid);
    case InviteResult(id, status) => WordFollows(s, id, s.ops[id].word & !SENT);
    case CallReady(id) => WordFollows(s, id, ACTIVE);
    case CallTerminated(id) => HangupFollows(s, id);
    case SubscribeResult(id, status) => UnsubscribeFollows(s, id);
    case UnsubscribeResult(id, status) => EndFollows(s, id, Ends(e));
    case RegisterResult(id, status) => EndFollows(s, id, Ends(e));
    case UnregisterResult(id, status) => EndFollows(s, id, Ends(e));
    case PublishResult(id, status, expired) => EndFollows(s, id, Ends(e));
  }

  lemma EventDecides(s: State, e: StackEvent, sdp: Sdp)
    requires Sound(s) && Follows(s) && Deliverable(s, e) && BaseEvent(e)
    ensures if e.GotInvite? && RungAlone(s, e.op, e.auto) then Alone(Take(s, e, sdp)) else Follows(Take(s, e, sdp))
  {
    if e.GotInvite? {
      RingDecides(s, e.op, e.auto, sdp);
    } else {
      EventFollows(s, e, sdp);
    }
  }

  /** One event leaves media up without a call exactly when it answers while no INVITE is listed. */
  lemma StepDecides(s: State, e: Event, sdp: Sdp)
    requires Sound(s) && Follows(s) && Enabled(s, e) && Base(e)
    ensures if AnswersAlone(s, e) then Alone(Step(s, e, sdp)) else Follows(Step(s, e, sdp))
  {
    match e
    case Do(c) => CommandDecides(s, c, sdp);
    case Got(ev) => EventDecides(s, ev, sdp);
    case MediaSignal(signal) =>
  }

  /** Media is active only with an INVITE listed, and disabled without one once a handle was closed. */
  ghost predicate InStep(s: State) {
    && (s.media == Active ==> HasInvite(s.ops, s.list))
    && (!HasInvite(s.ops, s.list) && (exists id :: Closed(id) in s.log) ==> s.media == Disabled)
  }

  /** InStep holds at the start and after every event of the run. */
  ghost predicate AlwaysInStep(s: State, events: seq<Event>, sdp: Sdp)
    requires Tidy(s) && Possible(s, events, sdp)
    decreases |events|
  {
    InStep(s) && (events == [] || AlwaysInStep(Step(s, events[0], sdp), events[1..], sdp))
  }

  /** No event of the run answers while no INVITE is listed. */
  predicate NeverAnswersAlone(s: State, events: seq<Event>, sdp: Sdp)
    requires Tidy(s) && Possible(s, events, sdp)
    decreases |events|
  {
    events == [] ||
    (!AnswersAlone(s, events[0]) && NeverAnswersAlone(Step(s, events[0], sdp), events[1..], sdp))
  }

  lemma {:induction false} RunDecides(s: State, events: seq<Event>, sdp: Sdp)
    requires Sound(s) && Follows(s) && Possible(s, events, sdp) && AllBase(events)
    ensures AlwaysInStep(s, events, sdp) <==> NeverAnswersAlone(s, events, sdp)
    ensures NeverAnswersAlone(s, events, sdp) ==> Follows(Run(s, events, sdp))
    decreases |events|
  {
    if events != [] {
      var t := Step(s, events[0], sdp);
      StepDecides(s, events[0], sdp);
      if AnswersAlone(s, events[0]) {
        AloneNotAlways(t, events[1..], sdp);
      } else {
        StepSound(s, events[0], sdp);
        RunDecides(t, events[1..], sdp);
      }
    }
  }

  lemma AloneNotAlways(s: State, events: seq<Event>, sdp: Sdp)
    requires Tidy(s) && Possible(s, events, sdp) && Alone(s)
    ensures !AlwaysInStep(s, events, sdp)
  {
  }

  /**
   * Over every run of the base media: media stays in step with the calls, at the start and after every
   * event, if and only if no event answers a call while no INVITE operation is listed.
   */
  lemma MediaFollowsCalls(events: seq<Event>, sdp: Sdp)
    requires Possible(Initial, events, sdp) && AllBase(events)
    ensures AlwaysInStep(Initial, events, sdp) <==> NeverAnswersAlone(Initial, events, sdp)
    ensures NeverAnswersAlone(Initial, events, sdp) ==> InStep(Run(Initial, events, sdp))
  {
    RunDecides(Initial, events, sdp);
  }

  // ----- INVITEs on INVITE operations -----

  /** Only INVITE operations wait for an answer. */
  predicate RecvIsInvite(s: State) {
    forall id :: 0 <= id < |s.ops| && Has(s.ops[id].word, RECV) ==> s.ops[id].verb.Invite?
  }

  lemma BitsOfRecv(word: bv8)
    ensures Has(word | SENT, RECV) == Has(word, RECV) && Has(word & !SENT, RECV) == Has(word, RECV)
    ensures !Has(0, RECV) && !Has(SENT, RECV) && !Has(ACTIVE, RECV) && !Has(0 | PENDING, RECV) && Has(RECV, RECV)
  {
  }

  lemma WordRecv(s: State, id: nat, word: bv8)
    requires RecvIsInvite(s) && id < |s.ops| && (Has(word, RECV) ==> s.ops[id].verb.Invite?)
    ensures RecvIsInvite(SetWord(s, id, word))
  {
  }

  lemma DestroyRecv(s: State, id: nat)
    requires RecvIsInvite(s) && id < |s.ops|
    ensures RecvIsInvite(Destroy(s, id)) && RecvIsInvite(DestroyDisconnected(s, id))
  {
  }

  lemma {:induction false} CleanRecv(s: State, todo: seq<nat>)
    requires RecvIsInvite(s) && Known(s, todo)
    ensures RecvIsInvite(Clean(s, todo))
    decreases |todo|
  {
    if todo != [] {
      assert todo[0] in todo && forall id :: id in todo[1..] ==> id in todo;
      DestroyRecv(s, todo[0]);
      CleanRecv(if Keeps(s.ops[todo[0]]) then s else Destroy(s, todo[0]), todo[1..]);
    }
  }

  lemma CreateRecv(s: State, m: SipMethod, valid: bool)
    requires RecvIsInvite(s) && Tidy(s)
    ensures RecvIsInvite(Prepend(s, m)) && RecvIsInvite(Create(s, m, valid))
  {
    BitsOfRecv(0);
    CleanRecv(Prepend(s, m), s.list);
  }

  lemma CallbackRecv(s: State, id: nat, signal: MediaState, sdp: Sdp)
    requires RecvIsInvite(s) && id < |s.ops|
    ensures RecvIsInvite(Callback(s, id, signal, sdp))
  {
    var t, word := Log(s, Notified(id, signal)), s.ops[id].word;
    BitsOfRecv(word);
    WordRecv(t, id, 0);
    WordRecv(t, id, SENT);
    WordRecv(t, id, word | SENT);
    DestroyRecv(SetWord(t, id, 0), id);
    DestroyRecv(t.(media := Disabled), id);
  }

  lemma {:induction false} EmitRecv(s: State, signal: MediaState, todo: seq<nat>, sdp: Sdp)
    requires RecvIsInvite(s) && Known(s, todo)
    ensures RecvIsInvite(Emit(s, signal, todo, sdp))
    decreases |todo|
  {
    if todo != [] {
      assert todo[0] in todo && forall id :: id in todo[1..] ==> id in todo;
      if todo[0] in s.watchers {
        CallbackRecv(s, todo[0], signal, sdp);
        EmitRecv(Callback(s, todo[0], signal, sdp), signal, todo[1..], sdp);
      } else {
        EmitRecv(s, signal, todo[1..], sdp);
      }
    }
  }

  lemma ActivateRecv(s: State, id: nat, sdp: Sdp)
    requires Tidy(s) && RecvIsInvite(s) && id < |s.ops|
    ensures RecvIsInvite(Activate(s, id, BaseActivation, sdp))
  {
    var t := Connect(s, id);
    SignalsOnce(t, sdp);
    EmitRecv(t.(media := Active), Active, t.watchers, sdp);
  }

  lemma AnswerRecv(s: State, status: int, sdp: Sdp)
    requires Tidy(s) && RecvIsInvite(s)
    ensures RecvIsInvite(Answer(s, status, BaseActivation, sdp))
  {
    var found := First(s.ops, s.list, Unanswered());
    if found.Some? {
      var t := s.(answer := status);
      ActivateRecv(t, found.value, sdp);
      DestroyRecv(Log(t, Responded(found.value, status)), found.value);
    }
  }

  lemma StartCallRecv(s: State, valid: bool, sdp: Sdp)
    requires Tidy(s) && ListOk(s) && RecvIsInvite(s)
    ensures RecvIsInvite(StartCall(s, valid, BaseActivation, sdp))
  {
    if valid {
      var id, t := |s.ops|, Create(s, Invite, true);
      CreateRecv(s, Invite, true);
      CreateLaw(s, Invite);
      WordRecv(t, id, t.ops[id].word | PENDING);
      ActivateRecv(SetWord(t, id, t.ops[id].word | PENDING), id, sdp);
    }
  }

  lemma RingRecv(s: State, op: Option<nat>, auto: bool, sdp: Sdp)
    requires Tidy(s) && RecvIsInvite(s) && (op.Some? ==> On(s, op.value, Invite))
    ensures RecvIsInvite(Ring(s, op, auto, BaseActivation, sdp))
  {
    CreateRecv(s, Invite, true);
    AnswerRecv(IncomingCall(s, op), 200, sdp);
  }

  lemma CommandRecv(s: State, c: Command, sdp: Sdp)
    requires ListOk(s) && RecvIsInvite(s) && BaseCommand(c)
    ensures RecvIsInvite(Obey(s, c, sdp))
  {
    BitsOfRecv(0);
    match c
    case Call(valid, act) => StartCallRecv(s, valid, sdp);
    case Reply(status, act) => AnswerRecv(s, status, sdp);
    case EndCall =>
    case ZapFirst =>
      var found := First(s.ops, s.list, Transient());
      if found.Some? { DestroyRecv(s, found.value); }
    case Reject =>
      var found := First(s.ops, s.list, Embryonic());
      if found.Some? { DestroyRecv(s, found.value); }
    case Send(m, valid) => CreateRecv(s, m, valid);
    case SendRefer(valid) => CreateRecv(s, Refer, valid);
    case SendRegister(registrar, valid) => CreateRecv(s, Register, valid);
    case SendPublish(valid) => CreateRecv(s, Publish, valid);
  }

  lemma EventRecv(s: State, e: StackEvent, sdp: Sdp)
    requires ListOk(s) && RecvIsInvite(s) && Deliverable(s, e) && BaseEvent(e) && OnInvite(s, Got(e))
    ensures RecvIsInvite(Take(s, e, sdp))
  {
    BitsOfRecv(0);
    match e
    case GotInvite(op, auto, act) => RingRecv(s, op, auto, sdp);
    case GotRequest(m) => CreateRecv(s, m, true);
    case GotRefer(sip, valid) => CreateRecv(s, Invite, valid);
    case InviteResult(id, status) =>
      BitsOfRecv(s.ops[id].word);
      WordRecv(s, id, s.ops[id].word & !SENT);
    case CallReady(id) => WordRecv(s, id, ACTIVE);
    case CallTerminated(id) =>
      WordRecv(s, id, 0);
      DestroyRecv(SetWord(s, id, 0), id);
    case SubscribeResult(id, status) =>
    case _ => DestroyRecv(s, e.id);
  }

  lemma StepRecv(s: State, e: Event, sdp: Sdp)
    requires ListOk(s) && RecvIsInvite(s) && Enabled(s, e) && Base(e) && OnInvite(s, e)
    ensures RecvIsInvite(Step(s, e, sdp))
  {
    match e
    case Do(c) => CommandRecv(s, c, sdp);
    case Got(ev) => EventRecv(s, ev, sdp);
    case MediaSignal(signal) =>
  }

  /** An incoming INVITE comes on a new handle or on an INVITE operation. */
  predicate OnInvite(s: State, e: Event) {
    e.Got? && e.event.GotInvite? && e.event.op.Some? ==> On(s, e.event.op.value, Invite)
  }

  /** The run keeps OnInvite. */
  predicate InvitesOnInvites(s: State, events: seq<Event>, sdp: Sdp)
    requires Tidy(s) && Possible(s, events, sdp)
    decreases |events|
  {
    events == [] ||
    (OnInvite(s, events[0]) && InvitesOnInvites(Step(s, events[0], sdp), events[1..], sdp))
  }

  lemma OnInviteAnswers(s: State, e: Event)
    requires Tidy(s) && RecvIsInvite(s) && Enabled(s, e) && OnInvite(s, e)
    ensures !AnswersAlone(s, e)
  {
    BitsOfRecv(0);
    var found := First(s.ops, s.list, Unanswered());
    assert found.Some? ==> s.ops[found.value].verb.Invite?;
  }

  /** Incoming INVITEs on new or INVITE operations are enough for media to stay in step. */
  lemma {:induction false} InvitesOnInvitesSuffice(s: State, events: seq<Event>, sdp: Sdp)
    requires Sound(s) && RecvIsInvite(s) && Possible(s, events, sdp) && AllBase(events)
    requires InvitesOnInvites(s, events, sdp)
    ensures NeverAnswersAlone(s, events, sdp)
    decreases |events|
  {
    if events != [] {
      OnInviteAnswers(s, events[0]);
      StepRecv(s, events[0], sdp);
      StepSound(s, events[0], sdp);
      InvitesOnInvitesSuffice(Step(s, events[0], sdp), events[1..], sdp);
    }
  }

  lemma RunOne(s: State, e: Event, sdp: Sdp)
    requires Tidy(s) && Enabled(s, e)
    ensures Possible(s, [e], sdp) && Run(s, [e], sdp) == Step(s, e, sdp)
  {
    var t := Step(s, e, sdp);
    assert [e][1..] == [];
    assert Possible(t, [], sdp) && Run(t, [], sdp) == t;
  }

  lemma {:induction false} RunJoins(s: State, a: seq<Event>, b: seq<Event>, sdp: Sdp)
    requires Tidy(s) && Possible(s, a, sdp) && Possible(Run(s, a, sdp), b, sdp)
    ensures Possible(s, a + b, sdp) && Run(s, a + b, sdp) == Run(Run(s, a, sdp), b, sdp)
    decreases |a|
  {
    if a == [] {
      assert a + b == b;
    } else {
      assert (a + b)[1..] == a[1..] + b;
      RunJoins(Step(s, a[0], sdp), a[1..], b, sdp);
    }
  }

  /** One more event at the end of a run. */
  lemma RunThen(s: State, a: seq<Event>, e: Event, sdp: Sdp)
    requires Tidy(s) && Possible(s, a, sdp) && Enabled(Run(s, a, sdp), e)
    ensures Possible(s, a + [e], sdp) && Run(s, a + [e], sdp) == Step(Run(s, a, sdp), e, sdp)
  {
    RunOne(Run(s, a, sdp), e, sdp);
    RunJoins(s, a, [e], sdp);
  }

  /** The run `events` is possible and ends in `s`. */
  ghost predicate Leads(events: seq<Event>, sdp: Sdp, s: State) {
    Possible(Initial, events, sdp) && Run(Initial, events, sdp) == s
  }

  lemma LeadsOn(events: seq<Event>, e: Event, sdp: Sdp, s: State, t: State)
    requires Leads(events, sdp, s) && Tidy(s) && Enabled(s, e) && Step(s, e, sdp) == t
    ensures Leads(events + [e], sdp, t)
  {
    RunThen(Initial, events, e, sdp);
  }

  /** A MESSAGE operation that an INVITE came on is answered. */
  lemma AnsweredMessage(s: State, sdp: Sdp)
    requires s.ops == [Op(Message, RECV, false, true)] && s.list == [0] && s.watchers == [] && s.media == Init
    ensures Tidy(s)
    ensures var r := Answer(s, 200, BaseActivation, sdp);
            r.media == Active && r.list == [0] && |r.ops| == 1 && r.ops[0].verb == Message
  {
    FirstIs(s.ops, s.list, Unanswered(), 0);
    var u := Connect(s.(answer := 200), 0);
    var v := u.(media := Active);
    assert u.watchers == [0] && u.watchers[1..] == [];
    SignalsOnce(u, sdp);
    var w := Callback(v, 0, Active, sdp);
    assert Emit(v, Active, [0], sdp) == Emit(w, Active, [], sdp) == w;
    assert !Has(RECV, PENDING) && Has(RECV, RECV);
  }

  /** A MESSAGE operation, then an INVITE on it. */
  lemma MessageThenInvite(first: Event, second: Event, sdp: Sdp)
    requires first == Got(GotRequest(Message)) && second == Got(GotInvite(Some(0), true, BaseActivation))
    ensures Possible(Initial, [first] + [second], sdp)
    ensures var r := Run(Initial, [first] + [second], sdp); r.media == Active && !HasInvite(r.ops, r.list)
  {
    var s := Step(Initial, first, sdp);
    assert s.ops == [Op(Message, 0, false, true)] && s.list == [0];
    RunOne(Initial, first, sdp);
    assert (0 as bv8) | RECV == RECV;
    AnsweredMessage(InviteAgain(s, 0), sdp);
    LeadsOn([first], second, sdp, s, Step(s, second, sdp));
  }

  /** An INVITE that comes on a MESSAGE operation: answered, it makes media active without a call. */
  lemma InviteOnMessage(events: seq<Event>, sdp: Sdp)
    requires events == [Got(GotRequest(Message)), Got(GotInvite(Some(0), true, BaseActivation))]
    ensures Possible(Initial, events, sdp) && AllBase(events)
    ensures var r := Run(Initial, events, sdp); r.media == Active && !HasInvite(r.ops, r.list)
  {
    MessageThenInvite(events[0], events[1], sdp);
    assert events == [events[0]] + [events[1]];
  }
}
