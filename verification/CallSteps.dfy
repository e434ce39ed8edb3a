/**
 * What each command and each event of the SIP stack leaves of a reachable state, told from the fields
 * and in the numbers of the protocol (Lab/sofsip-cli-0.16/src/ssc_oper.c:65-345,
 * Lab/sofsip-cli-0.16/src/ssc_sip.c:697-1845).
 */
module CallSteps {
  import opened Common
  import opened MediaStates
  import opened Calls
  import opened CallLaws
  import opened CallSafety
  import opened CallMedia

  // ----- taking an operation off the list

  /** The list without its one occurrence of `id`. */
  ghost predicate CutOut(list: seq<nat>, left: seq<nat>, id: nat) {
    exists k :: 0 <= k < |list| && list[k] == id && left == list[..k] + list[k + 1..]
  }

  /** Media stays only for an INVITE. */
  ghost predicate MediaFor(s: State, r: State) {
    r.media == if exists x :: x in r.list && x < |s.ops| && s.ops[x].verb.Invite? then s.media else Disabled
  }

  /** `id` was taken off the list and its handle closed; its connections stay. */
  ghost predicate Freed(s: State, r: State, id: nat)
    requires id < |s.ops|
  {
    && CutOut(s.list, r.list, id) && r.ops == s.ops[id := s.ops[id].(open := false)]
    && r.log == s.log + [Closed(id)] && MediaFor(s, r)
    && r.watchers == s.watchers && r.answer == s.answer
  }

  /** `id` lost its connections, every other operation kept its own. */
  ghost predicate Unplugged(s: State, r: State, id: nat) {
    id !in r.watchers && forall x: nat :: x != id ==> multiset(r.watchers)[x] == multiset(s.watchers)[x]
  }

  /** `id` was disconnected, taken off the list and its handle closed. */
  ghost predicate Dismissed(s: State, r: State, id: nat)
    requires id < |s.ops|
  {
    && CutOut(s.list, r.list, id) && r.ops == s.ops[id := s.ops[id].(open := false)]
    && r.log == s.log + [Disconnected(id), Closed(id)] && MediaFor(s, r)
    && Unplugged(s, r, id) && r.answer == s.answer
  }

  lemma DestroyFrees(s: State, id: nat)
    requires ListOk(s) && id in s.list
    ensures Freed(s, Destroy(s, id), id)
  {
    var k :| 0 <= k < |s.list| && s.list[k] == id;
    DestroyFreesAt(s, s.list[..k], id, s.list[k + 1..]);
    assert Destroy(s, id).list == s.list[..k] + s.list[k + 1..];
  }

  lemma DestroyFreesAt(s: State, front: seq<nat>, id: nat, rest: seq<nat>)
    requires ListOk(s) && s.list == front + [id] + rest
    ensures id < |s.ops|
    ensures var r := Destroy(s, id);
            && r.list == front + rest && r.ops == s.ops[id := s.ops[id].(open := false)]
            && r.log == s.log + [Closed(id)] && MediaFor(s, r)
            && r.watchers == s.watchers && r.answer == s.answer
  {
    assert s.list[|front|] == id && id in s.list;
    DropStep(s, front, id, rest);
    var r := Destroy(s, id);
    InvitesAgree(s.ops, r.ops, r.list);
  }

  lemma {:induction false} WithoutUnplugs(watchers: seq<nat>, id: nat, x: nat)
    requires x != id
    ensures multiset(Without<nat>(watchers, id))[x] == multiset(watchers)[x]
  {
    if watchers != [] {
      WithoutUnplugs(watchers[1..], id, x);
      assert watchers == [watchers[0]] + watchers[1..];
    }
  }

  lemma DisconnectUnplugs(s: State, id: nat)
    ensures Unplugged(s, Disconnect(s, id), id)
  {
    var r := Disconnect(s, id);
    assert r.watchers == Without<nat>(s.watchers, id);
    forall x: nat | x != id ensures multiset(r.watchers)[x] == multiset(s.watchers)[x] {
      WithoutUnplugs(s.watchers, id, x);
    }
  }

  lemma DismissDoes(s: State, id: nat)
    requires ListOk(s) && id in s.list
    ensures Dismissed(s, DestroyDisconnected(s, id), id)
  {
    var t := Disconnect(s, id);
    DisconnectUnplugs(s, id);
    DestroyFrees(t, id);
    assert s.log + [Disconnected(id)] + [Closed(id)] == s.log + [Disconnected(id), Closed(id)];
  }

  lemma LedSound(events: seq<Event>, sdp: Sdp, s: State)
    requires Leads(events, sdp, s)
    ensures Sound(s)
  {
    RunSound(Initial, events, sdp);
  }

  // ----- the final answers

  /**
   * Which final answers end an operation: an authentication challenge never does, a registration ends
   * when it fails, its removal and a removed subscription when they succeed as well, and a publication
   * when it fails or has expired. Any other answer changes nothing.
   */
  lemma FinalAnswers(events: seq<Event>, sdp: Sdp, s: State, e: StackEvent)
    requires Leads(events, sdp, s) && Deliverable(s, e)
    ensures var r := Step(s, Got(e), sdp);
            match e
            case RegisterResult(id, status) =>
              if status >= 300 && status != 401 && status != 407 then Freed(s, r, id) else r == s
            case UnregisterResult(id, status) =>
              if status >= 200 && status != 401 && status != 407 then Freed(s, r, id) else r == s
            case UnsubscribeResult(id, status) => if status >= 200 then Freed(s, r, id) else r == s
            case PublishResult(id, status, expired) =>
              if status >= 300 && status != 401 && status != 407 then Freed(s, r, id)
              else if 200 <= status < 300 && expired then Freed(s, r, id)
              else r == s
            case _ => true
  {
    LedSound(events, sdp, s);
    if e.RegisterResult? || e.UnregisterResult? || e.UnsubscribeResult? || e.PublishResult? {
      DestroyFrees(s, e.id);
    }
  }

  /** A failed INVITE clears bit 1 of its call's word; a failed SUBSCRIBE makes its operation transient. */
  lemma FailedRequests(s: State, id: nat, status: int, sdp: Sdp)
    requires Tidy(s) && id in s.list
    ensures Step(s, Got(InviteResult(id, status)), sdp)
            == if status < 300 then s else s.(ops := s.ops[id := s.ops[id].(word := s.ops[id].word & 254)])
    ensures s.ops[id].verb.Subscribe? ==>
              Step(s, Got(SubscribeResult(id, status)), sdp)
              == if status < 300 then s else s.(ops := s.ops[id := s.ops[id].(persistent := false)])
  {
    assert !SENT == 254;
  }

  /** An established call has word 4. */
  lemma ReadyCall(s: State, id: nat, sdp: Sdp)
    requires Tidy(s) && id in s.list
    ensures Step(s, Got(CallReady(id)), sdp) == s.(ops := s.ops[id := s.ops[id].(word := 4)])
  {
  }

  /** A terminated call is out of the list, the log and the connections, and media is off whatever is listed. */
  lemma TerminatedCall(events: seq<Event>, sdp: Sdp, s: State, id: nat)
    requires Leads(events, sdp, s) && id in s.list
    ensures var r := Step(s, Got(CallTerminated(id)), sdp);
            && CutOut(s.list, r.list, id) && r.media == Disabled && Unplugged(s, r, id) && r.answer == s.answer
            && r.ops == s.ops[id := s.ops[id].(word := 0, open := false)]
            && r.log == s.log + [Disconnected(id), Closed(id)]
  {
    LedSound(events, sdp, s);
    SentBit(0);
    WordSound(s, id, 0);
    DismissDoes(SetWord(s, id, 0), id);
  }

  // ----- creating an operation

  /** `a` is `b` with some elements left out. */
  predicate Sub(a: seq<nat>, b: seq<nat>) {
    if b == [] then a == [] else Sub(a, b[1..]) || (a != [] && a[0] == b[0] && Sub(a[1..], b[1..]))
  }

  /**
   * A new operation stands in front. Subscriptions, registrations and publications last and touch nothing
   * else; any other new operation frees each old one that is neither lasting nor in a call.
   */
  ghost predicate Created(s: State, r: State, m: SipMethod)
    requires Tidy(s)
  {
    var n, lasts := |s.ops|, m in {Subscribe, Register, Publish};
    && |r.ops| == n + 1 && r.ops[n] == Op(m, 0, lasts, true)
    && r.list != [] && r.list[0] == n && Sub(r.list[1..], s.list)
    && (forall id :: id in r.list[1..] <==>
          id in s.list && (lasts || s.ops[id].persistent || s.ops[id].word != 0))
    && (forall id :: 0 <= id < n ==>
          r.ops[id] == if id in s.list && id !in r.list then s.ops[id].(open := false) else s.ops[id])
    && s.log <= r.log && |r.log| - |s.log| == |s.list| + 1 - |r.list|
    && (forall a :: a in r.log[|s.log|..] <==> a.Closed? && a.op in s.list && a.op !in r.list)
    && r.media == (if |r.list| <= |s.list| && !(exists id :: id in r.list && id <= n && r.ops[id].verb.Invite?)
                   then Disabled else s.media)
    && r.watchers == s.watchers && r.answer == s.answer
  }

  lemma {:induction false} SubSame(a: seq<nat>)
    ensures Sub(a, a)
  {
    if a != [] { SubSame(a[1..]); }
  }

  lemma {:induction false} KeptIs(ops: seq<Op>, ids: seq<nat>)
    requires forall id :: id in ids ==> id < |ops|
    ensures forall id :: id in Kept(ops, ids) <==> id in ids && (ops[id].persistent || ops[id].word != 0)
    ensures Sub(Kept(ops, ids), ids) && |Kept(ops, ids)| + |Dropped(ops, ids)| == |ids|
  {
    if ids != [] {
      KeptTurn(ops, ids);
      KeptIs(ops, ids[1..]);
      assert ids == [ids[0]] + ids[1..];
      var more := Kept(ops, ids[1..]);
      assert ([ids[0]] + more)[1..] == more;
    }
  }

  lemma {:induction false} ClosingsAre(ids: seq<nat>)
    ensures |Closings(ids)| == |ids| && forall a :: a in Closings(ids) <==> a.Closed? && a.op in ids
  {
    if ids != [] {
      ClosingsAre(ids[1..]);
      assert ids == [ids[0]] + ids[1..];
    }
  }

  lemma CreateCreates(s: State, m: SipMethod)
    requires ListOk(s)
    ensures Created(s, Create(s, m, true), m) && Create(s, m, false) == s
  {
    CreateLaw(s, m);
    KeptIs(s.ops, s.list);
    SubSame(s.list);
    var r, none: seq<nat> := Create(s, m, true), [];
    var dropped := if Persistent(m) then none else Dropped(s.ops, s.list);
    ClosingsAre(dropped);
    assert (s.log + Closings(dropped))[|s.log|..] == Closings(dropped);
    var left := if Persistent(m) then s.list else Kept(s.ops, s.list);
    assert r.list == [|s.ops|] + left && r.list[1..] == left;
    assert forall id :: id in r.list <==> id == |s.ops| || id in left;
    assert forall id :: id in s.list && id !in r.list <==> id in dropped;
  }

  // ----- the requests that create an operation

  /** Made for a valid address; an invalid one changes nothing. */
  ghost predicate CreatedIf(valid: bool, s: State, r: State, m: SipMethod)
    requires Tidy(s)
  {
    if valid then Created(s, r, m) else r == s
  }

  /** A message, options or subscribe command always creates. */
  lemma SendCreates(events: seq<Event>, sdp: Sdp, s: State, m: SipMethod, valid: bool)
    requires Leads(events, sdp, s) && (m == Message || m == Options || m == Subscribe)
    ensures CreatedIf(valid, s, Step(s, Do(Send(m, valid)), sdp), m)
  {
    LedSound(events, sdp, s);
    CreateDoes(s, m, valid);
  }

  /** A registration with an explicit registrar always creates. */
  lemma RegistrarCreates(events: seq<Event>, sdp: Sdp, s: State, valid: bool)
    requires Leads(events, sdp, s)
    ensures CreatedIf(valid, s, Step(s, Do(SendRegister(true, valid)), sdp), Register)
  {
    LedSound(events, sdp, s);
    CreateDoes(s, Register, valid);
  }

  lemma CreateDoes(s: State, m: SipMethod, valid: bool)
    requires ListOk(s)
    ensures CreatedIf(valid, s, Create(s, m, valid), m)
  {
    CreateCreates(s, m);
  }

  /** A REFER to a SIP address makes an INVITE operation, any other none. */
  lemma ReferComes(events: seq<Event>, sdp: Sdp, s: State, sip: bool, valid: bool)
    requires Leads(events, sdp, s)
    ensures CreatedIf(sip && valid, s, Step(s, Got(GotRefer(sip, valid)), sdp), Invite)
  {
    LedSound(events, sdp, s);
    CreateDoes(s, Invite, valid);
  }

  /** A MESSAGE or INFO on a new handle makes a transient operation and frees none. */
  lemma RequestComes(s: State, m: SipMethod, sdp: Sdp)
    requires Tidy(s) && (m == Message || m == Info)
    ensures Step(s, Got(GotRequest(m)), sdp)
            == s.(ops := s.ops + [Op(m, 0, false, true)], list := [|s.ops|] + s.list)
  {
  }

  lemma {:induction false} FirstSome(ops: seq<Op>, list: seq<nat>, wanted: Op -> bool)
    ensures First(ops, list, wanted).Some? <==> exists id :: id in list && id < |ops| && wanted(ops[id])
  {
    if list != [] {
      FirstSome(ops, list[1..], wanted);
      assert list == [list[0]] + list[1..];
    }
  }

  /** REFER needs an operation only outside every call. */
  lemma RefersOutsideCalls(events: seq<Event>, sdp: Sdp, s: State, valid: bool)
    requires Leads(events, sdp, s)
    ensures var served := exists id :: id in s.list && s.ops[id].word != 0;
            var r := Step(s, Do(SendRefer(valid)), sdp);
            if served then r == s else CreatedIf(valid, s, r, Refer)
  {
    LedSound(events, sdp, s);
    FirstSome(s.ops, s.list, InCall());
    CreateDoes(s, Refer, valid);
  }

  /** A listed operation already keeps up the registration or publication. */
  predicate Lasts(s: State, m: SipMethod)
    requires Tidy(s)
  {
    exists id :: id in s.list && s.ops[id].verb == m && s.ops[id].persistent
  }

  lemma LastsIsFound(s: State, m: SipMethod)
    requires Tidy(s)
    ensures First(s.ops, s.list, Lasting(m)).Some? <==> Lasts(s, m)
  {
    FirstSome(s.ops, s.list, Lasting(m));
  }

  /** An own registration or publication is reused. */
  lemma ReusesRegistration(events: seq<Event>, sdp: Sdp, s: State, valid: bool)
    requires Leads(events, sdp, s)
    ensures var r := Step(s, Do(SendRegister(false, valid)), sdp);
            if Lasts(s, Register) then r == s else CreatedIf(valid, s, r, Register)
  {
    LedSound(events, sdp, s);
    LastsIsFound(s, Register);
    CreateDoes(s, Register, valid);
  }

  lemma ReusesPublication(events: seq<Event>, sdp: Sdp, s: State, valid: bool)
    requires Leads(events, sdp, s)
    ensures var r := Step(s, Do(SendPublish(valid)), sdp);
            if Lasts(s, Publish) then r == s else CreatedIf(valid, s, r, Publish)
  {
    LedSound(events, sdp, s);
    LastsIsFound(s, Publish);
    CreateDoes(s, Publish, valid);
  }

  // ----- the commands that look for an operation

  /** The listed operation at position `k`. */
  function At(s: State, k: nat): (o: Op)
    requires Tidy(s) && k < |s.list|
    ensures s.list[k] < |s.ops| && o == s.ops[s.list[k]]
  {
    assert s.list[k] in s.list;
    s.ops[s.list[k]]
  }

  /** `bye` ends the first operation in a call, established or not: BYE is sent and its word is 0. */
  lemma EndsFirstCall(s: State, k: nat, sdp: Sdp)
    requires Tidy(s) && k <= |s.list| && forall j :: 0 <= j < k ==> At(s, j).word == 0
    requires k < |s.list| ==> At(s, k).word != 0
    ensures Step(s, Do(EndCall), sdp)
            == if k == |s.list| then s
               else State(s.ops[s.list[k] := At(s, k).(word := 0)], s.list, s.media, s.watchers, s.answer,
                          s.log + [ByeSent(s.list[k])])
  {
    FindsAt(s, InCall(), k);
  }

  lemma FindsAt(s: State, wanted: Op -> bool, k: nat)
    requires Tidy(s) && k <= |s.list| && forall j :: 0 <= j < k ==> !wanted(At(s, j))
    requires k < |s.list| ==> wanted(At(s, k))
    ensures First(s.ops, s.list, wanted) == if k < |s.list| then Some(s.list[k]) else None
  {
    forall j | 0 <= j < k ensures s.list[j] < |s.ops| && !wanted(s.ops[s.list[j]]) {
      assert !wanted(At(s, j));
    }
    FirstIs(s.ops, s.list, wanted, k);
  }

  /** `zap` dismisses the first operation that is not persistent. */
  lemma ZapsFirstTransient(events: seq<Event>, sdp: Sdp, s: State, k: nat)
    requires Leads(events, sdp, s) && k <= |s.list| && forall j :: 0 <= j < k ==> At(s, j).persistent
    requires k < |s.list| ==> !At(s, k).persistent
    ensures var r := Step(s, Do(ZapFirst), sdp);
            if k == |s.list| then r == s else At(s, k).open && Dismissed(s, r, s.list[k])
  {
    LedSound(events, sdp, s);
    FindsAt(s, Transient(), k);
    if k < |s.list| {
      assert s.list[k] in s.list;
      DismissDoes(s, s.list[k]);
    }
  }

  /** `reject` frees the first INVITE that was not sent or received, and leaves its connections. */
  lemma RejectsFirstUnborn(events: seq<Event>, sdp: Sdp, s: State, k: nat)
    requires Leads(events, sdp, s) && k <= |s.list|
    requires forall j :: 0 <= j < k ==> At(s, j).verb != Invite || At(s, j).word != 0
    requires k < |s.list| ==> At(s, k).verb == Invite && At(s, k).word == 0
    ensures var r := Step(s, Do(Reject), sdp);
            if k == |s.list| then r == s else At(s, k).open && Freed(s, r, s.list[k])
  {
    LedSound(events, sdp, s);
    FindsAt(s, Embryonic(), k);
    if k < |s.list| {
      assert s.list[k] in s.list;
      DestroyFrees(s, s.list[k]);
    }
  }

  // ----- an incoming INVITE

  /** An INVITE on a new handle makes an operation of word 2, and on an old one sets bit 2, and no more. */
  lemma InviteRings(s: State, act: Activation, sdp: Sdp)
    requires Tidy(s)
    ensures Step(s, Got(GotInvite(None, false, act)), sdp)
            == s.(ops := s.ops + [Op(Invite, 2, false, true)], list := [|s.ops|] + s.list)
    ensures forall id :: id in s.list ==>
              Step(s, Got(GotInvite(Some(id), false, act)), sdp)
              == s.(ops := s.ops[id := s.ops[id].(word := s.ops[id].word | 2)])
  {
    assert (s.ops + [Op(Invite, 0, false, true)])[|s.ops| := Op(Invite, 2, false, true)]
        == s.ops + [Op(Invite, 2, false, true)];
  }

  /** An automatic answer is a reply of 200, given when the word is exactly 2. */
  lemma InviteAnswersItself(s: State, op: Option<nat>, act: Activation, sdp: Sdp)
    requires Tidy(s) && (op.Some? ==> op.value in s.list)
    ensures var rung := Step(s, Got(GotInvite(op, false, act)), sdp);
            Step(s, Got(GotInvite(op, true, act)), sdp)
            == if op.None? || s.ops[op.value].word | 2 == 2 then Step(rung, Do(Reply(200, act)), sdp) else rung
  {
  }
}
