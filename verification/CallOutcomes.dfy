/**
 * What a call and a reply come to: an activation is its signals one after the other, and over the base
 * media with or without a local SDP the outcome is known
 * (Lab/sofsip-cli-0.16/src/ssc_sip.c:697-732 and 830-979, Lab/sofsip-cli-0.16/src/ssc_media.c:260-285).
 */
module CallOutcomes {
  import opened Common
  import opened MediaStates
  import opened Calls
  import opened CallLaws
  import opened CallSafety
  import opened CallMedia
  import opened CallReach
  import opened CallSteps
  import opened CallAnswers
  import opened CallSignals

  function AsEvents(signals: seq<MediaState>): seq<Event> {
    if signals == [] then [] else [MediaSignal(signals[0])] + AsEvents(signals[1..])
  }

  lemma {:induction false} SignalsAreSteps(s: State, signals: seq<MediaState>, sdp: Sdp)
    requires Tidy(s)
    ensures Possible(s, AsEvents(signals), sdp) && Run(s, AsEvents(signals), sdp) == Signals(s, signals, sdp)
    decreases |signals|
  {
    if signals != [] {
      var e := MediaSignal(signals[0]);
      assert ([e] + AsEvents(signals[1..]))[1..] == AsEvents(signals[1..]);
      SignalsAreSteps(Step(s, e, sdp), signals[1..], sdp);
    }
  }

  /**
   * `id` was connected in `s`: the signals of the activation come one after the other, and if it failed
   * the operation is given up and no other is touched.
   */
  ghost predicate Activated(s: State, r: State, id: nat, act: Activation, sdp: Sdp) {
    && Tidy(s) && Possible(s, AsEvents(act.signals), sdp)
    && var t := Run(s, AsEvents(act.signals), sdp);
       if act.failed then
         && id !in r.list && id !in r.watchers && t.log <= r.log && Disconnected(id) in New(t, r)
         && forall x :: x != id ==> Untouched(t, r, x)
       else r == t
  }

  lemma ActivateIs(s: State, id: nat, act: Activation, sdp: Sdp)
    requires Sound(s) && id in s.list
    ensures Activated(Connect(s, id), Activate(s, id, act, sdp), id, act, sdp)
  {
    var u := Connect(s, id);
    var t := Signals(u, act.signals, sdp);
    SignalsAreSteps(u, act.signals, sdp);
    if act.failed {
      DismissLogs(t, id);
      ActivateSound(s, id, act, sdp);
      DismissedGone(t, DestroyDisconnected(t, id), id);
      forall x | x != id ensures Untouched(t, DestroyDisconnected(t, id), x) {
        DismissLeaves(t, id, x);
      }
    }
  }

  lemma DismissedGone(t: State, r: State, id: nat)
    requires Sound(r) && t.log <= r.log && Disconnected(id) in New(t, r)
    ensures id !in r.list && id !in r.watchers
  {
    DisconnectedGone(r, id);
  }

  /** `s` with operation `id` connected. */
  function Wire(s: State, id: nat): State {
    s.(watchers := s.watchers + [id], log := s.log + [Connected(id)])
  }

  /** `s` with the word of operation `id` set. */
  function Mark(s: State, id: nat, word: bv8): State
    requires id < |s.ops|
  {
    s.(ops := s.ops[id := s.ops[id].(word := word)])
  }

  lemma CallIsWired(s: State)
    requires Sound(s)
    ensures var n, t := |s.ops|, Create(s, Invite, true);
            && Created(s, t, Invite) && t.media == s.media && Sound(t) && Sound(SetWord(t, n, 16)) && n in t.list
            && InviteSent(n) !in t.log
  {
    var n, t := |s.ops|, Create(s, Invite, true);
    CreateCreates(s, Invite);
    CreateSound(s, Invite, true);
    CreateLaw(s, Invite);
    ClosingsOnly(Dropped(s.ops, s.list));
    FreshUnsent(s, t);
    assert t.list[0] == n && t.ops[n].verb.Invite?;
    StartSound(t, n, 16);
    assert HasInvite(t.ops, t.list);
  }

  /** A call creates its operation, marks it as waiting, connects it, and activates the media. */
  lemma CallActivates(events: seq<Event>, sdp: Sdp, s: State, act: Activation)
    requires Leads(events, sdp, s)
    ensures exists t :: Created(s, t, Invite) && t.media == s.media &&
              Activated(Wire(Mark(t, |s.ops|, 16), |s.ops|), Step(s, Do(Call(true, act)), sdp), |s.ops|, act, sdp)
    ensures Step(s, Do(Call(false, act)), sdp) == s
  {
    LedSound(events, sdp, s);
    CallIsWired(s);
    ActivateIs(SetWord(Create(s, Invite, true), |s.ops|, 16), |s.ops|, act, sdp);
  }

  /** A positive reply connects the first call that waits and activates the media. */
  lemma ReplyActivates(events: seq<Event>, sdp: Sdp, s: State, k: nat, status: int, act: Activation)
    requires Leads(events, sdp, s) && k <= |s.list| && forall j :: 0 <= j < k ==> At(s, j).word != 2
    requires k < |s.list| ==> At(s, k).word == 2
    ensures var r := Step(s, Do(Reply(status, act)), sdp);
            if k == |s.list| then r == s
            else if 200 <= status < 300 then
              Activated(Wire(s.(answer := status), s.list[k]), r, s.list[k], act, sdp)
            else
              && CutOut(s.list, r.list, s.list[k]) && MediaFor(s, r) && Unplugged(s, r, s.list[k])
              && r.ops == s.ops[s.list[k] := At(s, k).(open := false)] && r.answer == status
              && r.log == s.log + [Responded(s.list[k], status), Disconnected(s.list[k]), Closed(s.list[k])]
  {
    LedSound(events, sdp, s);
    FindsAt(s, Unanswered(), k);
    if k < |s.list| {
      var id := s.list[k];
      var t := s.(answer := status);
      assert id in s.list;
      AnswerFieldSound(s, status);
      if 200 <= status < 300 {
        ActivateIs(t, id, act, sdp);
      } else {
        var u := Log(t, Responded(id, status));
        NoteSound(t, Responded(id, status));
        DismissDoes(u, id);
        assert u.log + [Disconnected(id), Closed(id)]
            == s.log + [Responded(id, status), Disconnected(id), Closed(id)];
      }
    }
  }

  // ----- over the base media

  /** The base activation is the signal active. */
  lemma BaseActivated(s: State, r: State, id: nat, sdp: Sdp)
    requires Activated(s, r, id, BaseActivation, sdp)
    ensures r == Step(s, MediaSignal(Active), sdp)
  {
    var e := MediaSignal(Active);
    RunOne(s, e, sdp);
    assert [Active][1..] == [] && AsEvents([Active]) == [e];
  }

  /** With a local SDP a call goes out at once, unless media is active already: then nothing sends it. */
  lemma CallIsSent(events: seq<Event>, sdp: Sdp, s: State)
    requires Leads(events, sdp, s) && forall n :: sdp(n)
    ensures var r, n := Step(s, Do(Call(true, BaseActivation)), sdp), |s.ops|;
            && n in r.list && r.media == Active && n in r.watchers && |r.ops| == n + 1 && s.log <= r.log
            && (s.media != Active ==> r.ops[n] == Op(Invite, 1, false, true) && InviteSent(n) in New(s, r))
            && (s.media == Active ==> r.ops[n] == Op(Invite, 16, false, true) && InviteSent(n) !in New(s, r))
  {
    LedSound(events, sdp, s);
    CallIsWired(s);
    BaseCall(s, sdp);
    var n, r, t := |s.ops|, Step(s, Do(Call(true, BaseActivation)), sdp), Create(s, Invite, true);
    var u := Connect(SetWord(t, n, 16), n);
    WiredLog(t, u, n);
    if s.media == Active {
      SameSignal(u, sdp);
    } else {
      SignalServes(u, Active, sdp);
      assert u.ops[n].word == 16;
      assert ServedInLog(u.(media := Active), r, Active, n);
    }
    NewJoins(s, t, u, InviteSent(n));
    NewJoins(s, u, r, InviteSent(n));
  }

  lemma WiredLog(t: State, u: State, id: nat)
    requires u.log == t.log + [Connected(id)]
    ensures t.log <= u.log && New(t, u) == [Connected(id)]
  {
  }

  lemma BaseCall(s: State, sdp: Sdp)
    requires Sound(s)
    ensures var u := Connect(SetWord(Create(s, Invite, true), |s.ops|, 16), |s.ops|);
            && Sound(u) && |s.ops| in u.watchers && InviteSent(|s.ops|) !in u.log
            && Step(s, Do(Call(true, BaseActivation)), sdp) == Step(u, MediaSignal(Active), sdp)
  {
    var n, t := |s.ops|, SetWord(Create(s, Invite, true), |s.ops|, 16);
    CallIsWired(s);
    ConnectSound(t, n);
    ActivateIs(t, n, BaseActivation, sdp);
    BaseActivated(Connect(t, n), Activate(t, n, BaseActivation, sdp), n, sdp);
  }

  lemma UnsentWithoutSdp(u: State, sdp: Sdp, a: Action)
    requires Tidy(u) && a.InviteSent? && a !in u.log && forall n :: !sdp(n)
    ensures a !in Step(u, MediaSignal(Active), sdp).log
  {
    var r := Step(u, MediaSignal(Active), sdp);
    SignalAnswering(u, Active, sdp);
    forall p | |u.log| <= p < |r.log| ensures !r.log[p].InviteSent? {
      assert r.log[p].InviteSent? ==> FromCallback(r.log, p, u.answer, sdp);
      assert !sdp(if p > 0 then p - 1 else 0);
    }
    assert forall p :: 0 <= p < |u.log| ==> r.log[p] == u.log[p];
  }

  /** Without a local SDP a call is given up unsent. */
  lemma CallIsGivenUp(events: seq<Event>, sdp: Sdp, s: State)
    requires Leads(events, sdp, s) && s.media != Active && forall n :: !sdp(n)
    ensures var r, n := Step(s, Do(Call(true, BaseActivation)), sdp), |s.ops|;
            && n !in r.list && n !in r.watchers && |r.ops| == n + 1 && r.ops[n] == Op(Invite, 0, false, false)
            && InviteSent(n) !in r.log
  {
    LedSound(events, sdp, s);
    CallIsWired(s);
    BaseCall(s, sdp);
    var n := |s.ops|;
    var u := Connect(SetWord(Create(s, Invite, true), n, 16), n);
    RefusedIn(u, Active, sdp, n);
    UnsentWithoutSdp(u, sdp, InviteSent(n));
  }

  /** Without a local SDP a positive reply answers its call with 500. */
  lemma ReplyIsRefused(events: seq<Event>, sdp: Sdp, s: State, k: nat, status: int)
    requires Leads(events, sdp, s) && 200 <= status < 300 && s.media != Active && forall n :: !sdp(n)
    requires k < |s.list| && At(s, k).word == 2 && forall j :: 0 <= j < k ==> At(s, j).word != 2
    ensures var r, id := Step(s, Do(Reply(status, BaseActivation)), sdp), s.list[k];
            |r.ops| == |s.ops| && r.ops[id] == At(s, k).(word := 0) && Responded(id, 500) in r.log
  {
    LedSound(events, sdp, s);
    ReplyActivates(events, sdp, s, k, status, BaseActivation);
    var r, id, t := Step(s, Do(Reply(status, BaseActivation)), sdp), s.list[k], s.(answer := status);
    var u := Wire(t, id);
    BaseActivated(u, r, id, sdp);
    AnswerFieldSound(s, status);
    ConnectSound(t, id);
    assert u.ops[id].word == 2 && u.watchers[|s.watchers|] == id;
    RefusedIn(u, Active, sdp, id);
  }

  /** With a local SDP a positive reply answers its call with its status, unless media is active already. */
  lemma ReplyIsAnswered(events: seq<Event>, sdp: Sdp, s: State, k: nat, status: int)
    requires Leads(events, sdp, s) && 200 <= status < 300 && forall n :: sdp(n)
    requires k < |s.list| && At(s, k).word == 2 && forall j :: 0 <= j < k ==> At(s, j).word != 2
    ensures var r, id := Step(s, Do(Reply(status, BaseActivation)), sdp), s.list[k];
            && r.list == s.list && r.media == Active && |r.ops| == |s.ops| && s.log <= r.log
            && (s.media != Active ==> r.ops[id] == At(s, k).(word := 3) && Responded(id, status) in New(s, r))
            && (s.media == Active ==> r.ops == s.ops && Responded(id, status) !in New(s, r))
  {
    ReplyActivates(events, sdp, s, k, status, BaseActivation);
    var r, id, t := Step(s, Do(Reply(status, BaseActivation)), sdp), s.list[k], s.(answer := status);
    var u := Wire(t, id);
    BaseActivated(u, r, id, sdp);
    WiredLog(s, u, id);
    if s.media == Active {
      SameSignal(u, sdp);
    } else {
      SignalServes(u, Active, sdp);
      assert u.ops[id].word == 2 && Served(2, status) == 3;
      assert ServedInLog(u.(media := Active), r, Active, id);
    }
    NewJoins(s, u, r, Responded(id, status));
  }
}
