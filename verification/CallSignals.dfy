/**
 * What a media signal does to every connected operation at once
 * (Lab/sofsip-cli-0.16/src/ssc_sip.c:830-924, Lab/sofsip-cli-0.16/src/ssc_media.c:436-443).
 */
module CallSignals {
  import opened Common
  import opened MediaStates
  import opened Calls
  import opened CallLaws
  import opened CallSafety
  import opened CallMedia
  import opened CallReach
  import opened CallSteps

  /** What was logged since. */
  function New(s: State, r: State): seq<Action>
    requires s.log <= r.log
  {
    r.log[|s.log|..]
  }

  lemma NewJoins(s: State, t: State, r: State, a: Action)
    requires s.log <= t.log <= r.log
    ensures a in New(s, r) <==> a in New(s, t) || a in New(t, r)
  {
    assert New(s, r) == New(s, t) + New(t, r);
  }

  // ----- media is ready and there is a local SDP

  /** The word of an operation that learns that media is ready: a waiting call is sent, a received one answered. */
  function Served(word: bv8, answer: int): bv8 {
    if word & 16 != 0 then 1
    else if word & 2 == 0 then word
    else if 200 <= answer < 300 then word | 1
    else 0
  }

  lemma ServedOnce(word: bv8, answer: int)
    ensures var w := Served(word, answer); w & 16 == 0 && Served(w, answer) == w
    ensures word & 2 != 0 && word & 16 == 0 && 200 <= answer < 300 ==> Served(word, answer) & 2 != 0
  {
  }

  /** Every listed and every freed operation in `told` is served. */
  ghost predicate Serving(s: State, r: State, signal: MediaState, told: set<nat>) {
    && r.list == s.list && r.media == s.media && r.watchers == s.watchers && r.answer == s.answer
    && |r.ops| == |s.ops| && s.log <= r.log
    && (forall id :: 0 <= id < |s.ops| ==>
          r.ops[id] == if id in told then s.ops[id].(word := Served(s.ops[id].word, s.answer)) else s.ops[id])
    && (forall a :: a in New(s, r) ==> ServingAction(s, signal, told, a))
    && (forall id :: id in told && id < |s.ops| ==> ServedInLog(s, r, signal, id))
  }

  /** An INVITE for a waiting call, the answer for a received one, and the callbacks before them. */
  predicate ServingAction(s: State, signal: MediaState, told: set<nat>, a: Action) {
    && a.op in told && a.op < |s.ops|
    && (|| a == Notified(a.op, signal)
        || (a == InviteSent(a.op) && s.ops[a.op].word & 16 != 0)
        || (a == Responded(a.op, s.answer) && s.ops[a.op].word & 16 == 0 && s.ops[a.op].word & 2 != 0))
  }

  ghost predicate ServedInLog(s: State, r: State, signal: MediaState, id: nat)
    requires s.log <= r.log && id < |s.ops|
  {
    && Notified(id, signal) in New(s, r)
    && (s.ops[id].word & 16 != 0 ==> InviteSent(id) in New(s, r))
    && (s.ops[id].word & 16 == 0 && s.ops[id].word & 2 != 0 ==> Responded(id, s.answer) in New(s, r))
  }

  lemma CallbackServes(s: State, id: nat, signal: MediaState, sdp: Sdp)
    requires id < |s.ops| && (signal == LocalReady || signal == Active) && s.media != Disabled && sdp(|s.log|)
    ensures Serving(s, Callback(s, id, signal, sdp), signal, {id})
  {
    var r, word := Callback(s, id, signal, sdp), s.ops[id].word;
    var more := if word & 16 != 0 then [InviteSent(id)] else if word & 2 != 0 then [Responded(id, s.answer)] else [];
    assert r.log == s.log + [Notified(id, signal)] + more;
    assert New(s, r) == [Notified(id, signal)] + more;
    assert r.ops[id].word == Served(word, s.answer);
  }

  lemma ServingWords(s: State, t: State, r: State, signal: MediaState, id: nat, more: set<nat>)
    requires Serving(s, t, signal, {id}) && Serving(t, r, signal, more)
    ensures forall x :: 0 <= x < |s.ops| ==>
              r.ops[x] == if x in {id} + more then s.ops[x].(word := Served(s.ops[x].word, s.answer)) else s.ops[x]
  {
    forall x | 0 <= x < |s.ops|
      ensures r.ops[x] == if x in {id} + more then s.ops[x].(word := Served(s.ops[x].word, s.answer)) else s.ops[x]
    {
      ServedOnce(s.ops[x].word, s.answer);
    }
  }

  lemma ServingJoins(s: State, t: State, r: State, signal: MediaState, id: nat, more: set<nat>)
    requires Serving(s, t, signal, {id}) && Serving(t, r, signal, more) && id < |s.ops|
    ensures Serving(s, r, signal, {id} + more)
  {
    ServingWords(s, t, r, signal, id, more);
    forall a | a in New(s, r) ensures ServingAction(s, signal, {id} + more, a) {
      NewJoins(s, t, r, a);
      if a in New(s, t) {
        assert ServingAction(s, signal, {id}, a);
      } else {
        assert ServingAction(t, signal, more, a);
        ServedOnce(s.ops[a.op].word, s.answer);
      }
    }
    forall x | x in {id} + more && x < |s.ops| ensures ServedInLog(s, r, signal, x) {
      NewJoins(s, t, r, Notified(x, signal));
      NewJoins(s, t, r, InviteSent(x));
      NewJoins(s, t, r, Responded(x, s.answer));
      if x == id {
        assert ServedInLog(s, t, signal, x);
      } else {
        assert ServedInLog(t, r, signal, x);
      }
    }
  }

  lemma {:induction false} EmitServes(s: State, signal: MediaState, todo: seq<nat>, sdp: Sdp)
    requires Known(s, todo) && (signal == LocalReady || signal == Active) && s.media != Disabled
    requires forall n :: sdp(n)
    ensures Serving(s, Emit(s, signal, todo, sdp), signal, Members(todo) * Members(s.watchers))
    decreases |todo|
  {
    if todo == [] {
      assert New(s, s) == [];
    } else {
      var id, rest := todo[0], todo[1..];
      assert id in todo && forall x :: x in todo <==> x == id || x in rest;
      if id in s.watchers {
        var t := Callback(s, id, signal, sdp);
        assert sdp(|s.log|);
        CallbackServes(s, id, signal, sdp);
        EmitServes(t, signal, rest, sdp);
        ServingJoins(s, t, Emit(t, signal, rest, sdp), signal, id, Members(rest) * Members(t.watchers));
      } else {
        EmitServes(s, signal, rest, sdp);
      }
      MembersTurn(todo, s.watchers, s.watchers);
    }
  }

  /** With a local SDP, local-ready or active serves every connected operation, listed or freed. */
  lemma SignalServes(s: State, signal: MediaState, sdp: Sdp)
    requires Tidy(s) && (signal == LocalReady || signal == Active) && s.media != signal && forall n :: sdp(n)
    ensures Serving(s.(media := signal), Step(s, MediaSignal(signal), sdp), signal, set id | id in s.watchers)
  {
    EmitServes(s.(media := signal), signal, s.watchers, sdp);
    assert Members(s.watchers) * Members(s.watchers) == set id | id in s.watchers;
  }

  /** A signal of the state media is in already does nothing. */
  lemma SameSignal(s: State, sdp: Sdp)
    requires Tidy(s)
    ensures Step(s, MediaSignal(s.media), sdp) == s
  {
  }

  // ----- what a signal leaves alone

  /** The operation, its place on the list and its connection are as before. */
  ghost predicate Untouched(s: State, r: State, id: nat) {
    && |r.ops| == |s.ops| && (id < |s.ops| ==> r.ops[id] == s.ops[id])
    && (id in r.list <==> id in s.list) && (id in r.watchers <==> id in s.watchers)
  }

  /** A callback of the signal finds nothing to do for the operation. */
  predicate Idle(s: State, id: nat, signal: MediaState) {
    && signal != Error
    && (signal == LocalReady || signal == Active ==> id < |s.ops| && s.ops[id].word & 18 == 0)
  }

  lemma NoBits(word: bv8)
    ensures word & 18 == 0 <==> word & 16 == 0 && word & 2 == 0
  {
  }

  lemma DismissLeaves(s: State, id: nat, x: nat)
    requires id < |s.ops| && x != id
    ensures Untouched(s, DestroyDisconnected(s, id), x)
  {
  }

  lemma CallbackLeaves(s: State, id: nat, signal: MediaState, sdp: Sdp, x: nat)
    requires id < |s.ops| && (x == id ==> Idle(s, id, signal))
    ensures Untouched(s, Callback(s, id, signal, sdp), x)
  {
    if x == id {
      NoBits(s.ops[id].word);
    } else {
      var t := Log(s, Notified(id, signal));
      DismissLeaves(SetWord(t, id, 0), id, x);
      DismissLeaves(t.(media := Disabled), id, x);
    }
  }

  lemma {:induction false} EmitLeaves(s: State, signal: MediaState, todo: seq<nat>, sdp: Sdp, x: nat)
    requires Known(s, todo) && (x in todo && x in s.watchers ==> Idle(s, x, signal))
    ensures Untouched(s, Emit(s, signal, todo, sdp), x)
    decreases |todo|
  {
    if todo != [] {
      assert todo[0] in todo && forall id :: id in todo[1..] ==> id in todo;
      if todo[0] in s.watchers {
        CallbackLeaves(s, todo[0], signal, sdp, x);
        EmitLeaves(Callback(s, todo[0], signal, sdp), signal, todo[1..], sdp, x);
      } else {
        EmitLeaves(s, signal, todo[1..], sdp, x);
      }
    }
  }

  // ----- no local SDP

  /** A waiting call is dismissed unsent, a received one answered 500, and any other left alone. */
  ghost predicate Refused(s: State, r: State, id: nat)
    requires id < |s.ops|
  {
    && |r.ops| == |s.ops| && s.log <= r.log
    && if s.ops[id].word & 16 != 0 then
         r.ops[id] == s.ops[id].(word := 0, open := false) && Disconnected(id) in New(s, r)
       else if s.ops[id].word & 2 != 0 then
         r.ops[id] == s.ops[id].(word := 0) && Responded(id, 500) in New(s, r)
       else
         Untouched(s, r, id)
  }

  lemma CallbackRefuses(s: State, id: nat, signal: MediaState, sdp: Sdp)
    requires Sound(s) && Emitting(s) && id in s.watchers && (signal == LocalReady || signal == Active)
    requires !sdp(|s.log|)
    ensures Refused(s, Callback(s, id, signal, sdp), id)
  {
    var r, t := Callback(s, id, signal, sdp), Log(s, Notified(id, signal));
    assert WaitsProperly(s, id);
    if s.ops[id].word & 16 != 0 {
      assert s.media != Disabled;
      var d := Disconnect(SetWord(t, id, 0), id);
      assert r == Destroy(d, id) && d.log == s.log + [Notified(id, signal)] + [Disconnected(id)];
      assert d.log <= r.log && New(s, d) == [Notified(id, signal)] + [Disconnected(id)];
      assert Disconnected(id) in New(s, d);
      NewJoins(s, d, r, Disconnected(id));
    } else if s.ops[id].word & 2 != 0 {
      assert r.log == s.log + [Notified(id, signal)] + [Responded(id, 500)];
      assert New(s, r) == [Notified(id, signal)] + [Responded(id, 500)];
      assert Responded(id, 500) in New(s, r);
    }
  }

  lemma CallbackKeepsEmitting(s: State, id: nat, signal: MediaState, sdp: Sdp)
    requires Sound(s) && Emitting(s) && id in s.watchers && (signal == LocalReady || signal == Active)
    ensures Emitting(Callback(s, id, signal, sdp)) && s.log <= Callback(s, id, signal, sdp).log
  {
    var r, t := Callback(s, id, signal, sdp), Log(s, Notified(id, signal));
    CallbackNotifies(s, id, signal, sdp);
    var d := SetWord(t, id, 0);
    SameVerbs(s.ops, d.ops, s.list);
    DestroyEmitting(d, id);
    if r.list == s.list && r.media == s.media {
      SameVerbs(s.ops, r.ops, s.list);
    }
  }

  lemma {:induction false} EmitRefuses(s: State, signal: MediaState, todo: seq<nat>, sdp: Sdp, id: nat)
    requires Sound(s) && Emitting(s) && Known(s, todo) && (signal == LocalReady || signal == Active)
    requires id in todo && id in s.watchers && forall n :: !sdp(n)
    ensures Refused(s, Emit(s, signal, todo, sdp), id)
    decreases |todo|
  {
    var x, rest := todo[0], todo[1..];
    assert x in todo && forall y :: y in rest ==> y in todo;
    if x in s.watchers {
      var t := Callback(s, x, signal, sdp);
      var r := Emit(t, signal, rest, sdp);
      assert !sdp(|s.log|);
      CallbackSound(s, x, signal, sdp);
      EmitNotifies(t, signal, rest, sdp);
      CallbackKeepsEmitting(s, x, signal, sdp);
      if x == id {
        CallbackRefuses(s, x, signal, sdp);
        RefusedIsIdle(s, t, id, signal);
        EmitLeaves(t, signal, rest, sdp, id);
      } else {
        CallbackLeaves(s, x, signal, sdp, id);
        EmitRefuses(t, signal, rest, sdp, id);
      }
      NewJoins(s, t, r, Disconnected(id));
      NewJoins(s, t, r, Responded(id, 500));
    } else {
      EmitRefuses(s, signal, rest, sdp, id);
    }
  }

  lemma RefusedIsIdle(s: State, t: State, id: nat, signal: MediaState)
    requires id < |s.ops| && Refused(s, t, id) && (signal == LocalReady || signal == Active)
    ensures Idle(t, id, signal)
  {
    NoBits(s.ops[id].word);
  }

  lemma RefusedIn(s: State, signal: MediaState, sdp: Sdp, id: nat)
    requires Sound(s) && (signal == LocalReady || signal == Active) && s.media != signal
    requires id in s.watchers && forall n :: !sdp(n)
    ensures var r := Step(s, MediaSignal(signal), sdp);
            Refused(s, r, id) && (s.ops[id].word & 16 != 0 ==> id !in r.list && id !in r.watchers)
  {
    var t := s.(media := signal);
    MediaSound(s, signal);
    EmitRefuses(t, signal, s.watchers, sdp, id);
    SignalSound(s, signal, sdp);
    DisconnectedGone(Step(s, MediaSignal(signal), sdp), id);
  }

  /** Without a local SDP, local-ready or active refuses every connected operation. */
  lemma SignalRefuses(events: seq<Event>, sdp: Sdp, s: State, signal: MediaState, id: nat)
    requires Leads(events, sdp, s) && (signal == LocalReady || signal == Active) && s.media != signal
    requires id in s.watchers && forall n :: !sdp(n)
    ensures var r := Step(s, MediaSignal(signal), sdp);
            Refused(s, r, id) && (s.ops[id].word & 16 != 0 ==> id !in r.list && id !in r.watchers)
  {
    LedSound(events, sdp, s);
    RefusedIn(s, signal, sdp, id);
  }

  lemma DisconnectedGone(r: State, id: nat)
    requires Sound(r)
    ensures Disconnected(id) in r.log ==> id !in r.list && id !in r.watchers
  {
    assert Disconnected(id) in r.log ==> Recorded(r, Disconnected(id));
  }

  // ----- an error of the media subsystem

  lemma DismissLogs(s: State, id: nat)
    requires id < |s.ops|
    ensures var r := DestroyDisconnected(s, id); s.log <= r.log && Disconnected(id) in New(s, r) && !r.ops[id].open
  {
    var t := Disconnect(s, id);
    var r := Destroy(t, id);
    assert t.log <= r.log && New(s, t) == [Disconnected(id)];
    NewJoins(s, t, r, Disconnected(id));
  }

  lemma {:induction false} EmitErrors(s: State, todo: seq<nat>, sdp: Sdp, id: nat)
    requires Known(s, todo) && id in todo && id in s.watchers
    ensures var r := Emit(s, Error, todo, sdp); s.log <= r.log && Disconnected(id) in New(s, r) && r.media == Disabled
    decreases |todo|
  {
    var x, rest := todo[0], todo[1..];
    assert x in todo && forall y :: y in rest ==> y in todo;
    if x in s.watchers {
      var t, u := Callback(s, x, Error, sdp), Log(s, Notified(x, Error));
      var r := Emit(t, Error, rest, sdp);
      DismissLogs(u.(media := Disabled), x);
      EmitNotifies(t, Error, rest, sdp);
      NewJoins(s, u, t, Disconnected(id));
      if x == id {
        EmitStaysDisabled(t, rest, sdp);
      } else {
        CallbackLeaves(s, x, Error, sdp, id);
        EmitErrors(t, rest, sdp, id);
      }
      NewJoins(s, t, r, Disconnected(id));
    } else {
      EmitErrors(s, rest, sdp, id);
    }
  }

  lemma {:induction false} EmitStaysDisabled(s: State, todo: seq<nat>, sdp: Sdp)
    requires Known(s, todo) && s.media == Disabled
    ensures Emit(s, Error, todo, sdp).media == Disabled
    decreases |todo|
  {
    if todo != [] {
      assert todo[0] in todo && forall y :: y in todo[1..] ==> y in todo;
      EmitStaysDisabled(if todo[0] in s.watchers then Callback(s, todo[0], Error, sdp) else s, todo[1..], sdp);
    }
  }

  lemma ErrorReaches(s: State, sdp: Sdp, id: nat)
    requires Sound(s) && s.media != Error && id in s.watchers
    ensures var r := Signal(s, Error, sdp);
            r.media == Disabled && id !in r.list && id !in r.watchers && Disconnected(id) in r.log
  {
    EmitErrors(s.(media := Error), s.watchers, sdp, id);
    SignalSound(s, Error, sdp);
    DisconnectedGone(Signal(s, Error, sdp), id);
  }

  /** An error dismisses every connected operation, leaves the others alone, and disables media if it met one. */
  lemma ErrorDismisses(events: seq<Event>, sdp: Sdp, s: State, id: nat)
    requires Leads(events, sdp, s) && s.media != Error
    ensures var r := Step(s, MediaSignal(Error), sdp);
            && (if id in s.watchers then r.media == Disabled && id !in r.list && Disconnected(id) in r.log
                else Untouched(s, r, id))
            && (forall x :: x !in r.watchers) && (s.watchers == [] ==> r == s.(media := Error))
  {
    LedSound(events, sdp, s);
    var r := Signal(s, Error, sdp);
    forall x | x in s.watchers ensures x !in r.watchers {
      ErrorReaches(s, sdp, x);
    }
    assert forall x :: x in r.watchers ==> x in s.watchers;
    if id in s.watchers {
      ErrorReaches(s, sdp, id);
    } else {
      EmitLeaves(s.(media := Error), Error, s.watchers, sdp, id);
    }
  }

  // ----- any other signal

  /** A signal that is neither an error nor ready is only heard. */
  lemma OtherSignal(s: State, signal: MediaState, sdp: Sdp)
    requires Tidy(s) && signal != s.media && signal != LocalReady && signal != Active && signal != Error
    ensures Heard(s.(media := signal), Step(s, MediaSignal(signal), sdp), signal, s.watchers)
  {
    EmitHeard(s.(media := signal), signal, s.watchers, sdp);
  }

  /** `r` is `s` after `todo` heard the signal one after the other. */
  ghost predicate Heard(s: State, r: State, signal: MediaState, todo: seq<nat>) {
    && r == s.(log := r.log) && s.log <= r.log && |r.log| == |s.log| + |todo|
    && forall i :: 0 <= i < |todo| ==> r.log[|s.log| + i] == Notified(todo[i], signal)
  }

  lemma HeardFirst(s: State, r: State, signal: MediaState, todo: seq<nat>)
    requires todo != [] && Heard(Log(s, Notified(todo[0], signal)), r, signal, todo[1..])
    ensures Heard(s, r, signal, todo)
  {
    var t := Log(s, Notified(todo[0], signal));
    assert r.log[|s.log|] == t.log[|s.log|];
    forall i | 0 <= i < |todo| ensures r.log[|s.log| + i] == Notified(todo[i], signal) {
      if i > 0 {
        assert r.log[|t.log| + (i - 1)] == Notified(todo[1..][i - 1], signal);
      }
    }
  }

  lemma {:induction false} EmitHeard(s: State, signal: MediaState, todo: seq<nat>, sdp: Sdp)
    requires Known(s, todo) && (forall id :: id in todo ==> id in s.watchers)
    requires signal != LocalReady && signal != Active && signal != Error
    ensures Heard(s, Emit(s, signal, todo, sdp), signal, todo)
    decreases |todo|
  {
    if todo != [] {
      assert todo[0] in todo && forall y :: y in todo[1..] ==> y in todo;
      var t := Log(s, Notified(todo[0], signal));
      assert Emit(s, signal, todo, sdp) == Emit(t, signal, todo[1..], sdp);
      EmitHeard(t, signal, todo[1..], sdp);
      HeardFirst(s, Emit(t, signal, todo[1..], sdp), signal, todo);
    }
  }
}
