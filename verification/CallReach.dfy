/**
 * Which operations a media signal reaches: every operation that was connected and not
 * disconnected, also one that was destroyed, since ssc_oper_create and ssc_notify destroy
 * without disconnecting (Lab/sofsip-cli-0.16/src/ssc_oper.c:124-131,
 * Lab/sofsip-cli-0.16/src/ssc_sip.c:1537-1550).
 */
module CallReach {
  import opened MediaStates
  import opened Calls
  import opened CallLaws
  import opened CallSafety
  import opened CallMedia

  /** `r` extends the log of `s`, and notifies exactly `ids`, each of `signal`, in what it adds. */
  ghost predicate Notifies(s: State, r: State, signal: MediaState, ids: set<nat>) {
    && s.log <= r.log
    && (forall a :: a in r.log[|s.log|..] && a.Notified? ==> a.op in ids && a.signal == signal)
    && (forall id :: id in ids ==> Notified(id, signal) in r.log[|s.log|..])
  }

  lemma QuietLog(s: State, a: Action, signal: MediaState)
    requires !a.Notified?
    ensures Notifies(s, Log(s, a), signal, {})
  {
    assert (s.log + [a])[|s.log|..] == [a];
  }

  lemma QuietJoins(s: State, t: State, r: State, signal: MediaState, ids: set<nat>, more: set<nat>)
    requires Notifies(s, t, signal, ids) && Notifies(t, r, signal, more)
    ensures Notifies(s, r, signal, ids + more)
  {
    var a, b := t.log[|s.log|..], r.log[|t.log|..];
    assert t.log == s.log + a && r.log == t.log + b;
    assert r.log[|s.log|..] == a + b;
  }

  lemma DestroyQuiet(s: State, id: nat, signal: MediaState)
    requires id < |s.ops|
    ensures Notifies(s, DestroyDisconnected(s, id), signal, {})
    ensures DestroyDisconnected(s, id).watchers == Without(s.watchers, id)
  {
    var t := Disconnect(s, id);
    assert (s.log + [Disconnected(id)])[|s.log|..] == [Disconnected(id)];
    assert (t.log + [Closed(id)])[|t.log|..] == [Closed(id)] && t.log[|t.log|..] == [];
    QuietJoins(s, t, Destroy(t, id), signal, {}, {});
  }

  lemma ReactQuiet(s: State, id: nat, signal: MediaState, sdp: bool)
    requires id < |s.ops|
    ensures Notifies(s, React(s, id, signal, sdp), signal, {})
    ensures forall x :: x != id ==> (x in React(s, id, signal, sdp).watchers <==> x in s.watchers)
  {
    assert s.log[|s.log|..] == [];
    DestroyQuiet(SetWord(s, id, 0), id, signal);
    DestroyQuiet(s.(media := Disabled), id, signal);
    QuietLog(s, InviteSent(id), signal);
    QuietLog(s, Responded(id, 500), signal);
    QuietLog(s, Responded(id, s.answer), signal);
  }

  lemma CallbackNotifies(s: State, id: nat, signal: MediaState, sdp: Sdp)
    requires id < |s.ops|
    ensures Notifies(s, Callback(s, id, signal, sdp), signal, {id})
    ensures forall x :: x != id ==> (x in Callback(s, id, signal, sdp).watchers <==> x in s.watchers)
  {
    var t := Log(s, Notified(id, signal));
    assert (s.log + [Notified(id, signal)])[|s.log|..] == [Notified(id, signal)];
    ReactQuiet(t, id, signal, sdp(|s.log|));
    QuietJoins(s, t, Callback(s, id, signal, sdp), signal, {id}, {});
    assert {id} + {} == {id};
  }

  function Members(ids: seq<nat>): set<nat> {
    set id | id in ids
  }

  /** What one turn of the emission takes off the connections still to be called. */
  lemma MembersTurn(todo: seq<nat>, before: seq<nat>, after: seq<nat>)
    requires todo != [] && forall x :: x != todo[0] ==> (x in after <==> x in before)
    ensures var left := Members(todo[1..]) * Members(after);
            Members(todo) * Members(before) ==
              if todo[0] in before then {todo[0]} + left else left - {todo[0]}
    ensures before == after && todo[0] !in before ==>
              Members(todo) * Members(before) == Members(todo[1..]) * Members(after)
  {
    assert forall x :: x in todo <==> x == todo[0] || x in todo[1..];
  }

  lemma {:induction false} EmitNotifies(s: State, signal: MediaState, todo: seq<nat>, sdp: Sdp)
    requires Known(s, todo)
    ensures Notifies(s, Emit(s, signal, todo, sdp), signal, Members(todo) * Members(s.watchers))
    decreases |todo|
  {
    if todo == [] {
      assert s.log[|s.log|..] == [];
    } else {
      var id, rest := todo[0], todo[1..];
      assert id in todo && forall x :: x in todo <==> x == id || x in rest;
      if id in s.watchers {
        var t := Callback(s, id, signal, sdp);
        CallbackNotifies(s, id, signal, sdp);
        EmitNotifies(t, signal, rest, sdp);
        QuietJoins(s, t, Emit(t, signal, rest, sdp), signal, {id}, Members(rest) * Members(t.watchers));
        MembersTurn(todo, s.watchers, t.watchers);
      } else {
        EmitNotifies(s, signal, rest, sdp);
        MembersTurn(todo, s.watchers, s.watchers);
      }
    }
  }

  /**
   * In every reachable state the next signal that changes the media state is delivered to exactly the
   * operations that were connected and have not been disconnected, destroyed or not.
   */
  lemma NextSignalReaches(events: seq<Event>, sdp: Sdp, signal: MediaState, id: nat)
    requires Possible(Initial, events, sdp) && Run(Initial, events, sdp).media != signal
    ensures var s := Run(Initial, events, sdp);
            var r := Signal(s, signal, sdp);
            && s.log <= r.log
            && (Notified(id, signal) in r.log[|s.log|..] <==> Connected(id) in s.log && Disconnected(id) !in s.log)
  {
    RunSound(Initial, events, sdp);
    var s := Run(Initial, events, sdp);
    var t := s.(media := signal);
    EmitNotifies(t, signal, s.watchers, sdp);
    assert Members(s.watchers) * Members(s.watchers) == Members(s.watchers);
  }

  /**
   * Over every run, a callback for an operation whose handle is closed means that the operation was
   * connected before the handle was closed and was never disconnected.
   */
  lemma DanglingOnlyWhen(events: seq<Event>, sdp: Sdp, p: nat, q: nat)
    requires Possible(Initial, events, sdp) && p < q < |Run(Initial, events, sdp).log|
    requires Run(Initial, events, sdp).log[p].Closed? && Run(Initial, events, sdp).log[q].Notified?
    requires Run(Initial, events, sdp).log[p].op == Run(Initial, events, sdp).log[q].op
    ensures var log := Run(Initial, events, sdp).log;
            Connected(log[q].op) in log[..p] && Disconnected(log[q].op) !in log[..q]
  {
    RunSound(Initial, events, sdp);
    var log := Run(Initial, events, sdp).log;
    ConnectedFirst(log, p, q);
  }

  lemma ConnectedFirst(log: seq<Action>, p: nat, q: nat)
    requires Lawful(log) && p < q < |log| && log[p].Closed? && log[q].Notified? && log[p].op == log[q].op
    ensures Connected(log[q].op) in log[..p] && Disconnected(log[q].op) !in log[..q]
  {
    var id := log[q].op;
    assert LawfulAt(log, q);
    var k: nat :| k < |log[..q]| && log[..q][k] == Connected(id);
    assert LawfulAt(log, k) && log[k] == Connected(id);
    if p < k {
      NotAmong(log, Closed(id), k, p);
    } else {
      assert log[..p][k] == Connected(id);
    }
  }

  lemma NotAmong(log: seq<Action>, a: Action, k: nat, j: nat)
    requires j < k <= |log| && a !in log[..k]
    ensures log[j] != a
  {
    assert log[..k][j] == log[j];
  }

  // ----- the run that shows it

  lemma DropKeeps<T>(log: seq<T>, more: seq<T>, a: T)
    requires log <= more && a in more[|log|..]
    ensures exists q :: |log| <= q < |more| && more[q] == a
  {
    var k :| 0 <= k < |more[|log|..]| && more[|log|..][k] == a;
    assert more[|log| + k] == a;
  }

  lemma DropMore<T>(a: seq<T>, b: seq<T>, c: seq<T>)
    requires a <= b <= c
    ensures a <= c && forall x :: x in c[|b|..] ==> x in c[|a|..]
  {
    assert c[|b|..] == c[|a|..][|b| - |a|..];
  }

  /** A new call activates the media, and every operation that is still connected hears of it. */
  lemma StartReaches(s: State, sdp: Sdp, id: nat)
    requires ListOk(s) && s.media != Active && id in s.watchers
    ensures var r := StartCall(s, true, BaseActivation, sdp);
            s.log <= r.log && Notified(id, Active) in r.log[|s.log|..]
  {
    CreateLaw(s, Invite);
    var n, t := |s.ops|, Create(s, Invite, true);
    var u := Connect(SetWord(t, n, t.ops[n].word | PENDING), n);
    var v := u.(media := Active);
    assert s.log <= u.log;
    SignalsOnce(u, sdp);
    EmitNotifies(v, Active, u.watchers, sdp);
    assert id in Members(u.watchers) * Members(v.watchers);
    DropMore(s.log, u.log, Emit(v, Active, u.watchers, sdp).log);
  }

  /** The state after a call was made, ended and cleaned away by the next message. */
  const Cleaned := State([Op(Invite, 0, false, false), Op(Message, 0, false, true)], [1], Disabled, [0], 0,
                         [Connected(0), Notified(0, Active), InviteSent(0), ByeSent(0), Closed(0)])

  const Called := State([Op(Invite, SENT, false, true)], [0], Active, [0], 0,
                        [Connected(0), Notified(0, Active), InviteSent(0)])

  const Ended := State([Op(Invite, 0, false, true)], [0], Active, [0], 0,
                       [Connected(0), Notified(0, Active), InviteSent(0), ByeSent(0)])

  lemma FirstCall(sdp: Sdp)
    requires sdp(1)
    ensures StartCall(Initial, true, BaseActivation, sdp) == Called
  {
    var t := Create(Initial, Invite, true);
    assert t == State([Op(Invite, 0, false, true)], [0], Init, [], 0, []);
    assert (0 as bv8) | PENDING == PENDING;
    var u := Connect(SetWord(t, 0, PENDING), 0);
    assert u == State([Op(Invite, PENDING, false, true)], [0], Init, [0], 0, [Connected(0)]);
    var v := u.(media := Active);
    SignalsOnce(u, sdp);
    assert [0][1..] == [];
    var w := Callback(v, 0, Active, sdp);
    assert Emit(v, Active, [0], sdp) == Emit(w, Active, [], sdp) == w;
    assert Has(PENDING, PENDING);
    assert w == Called;
  }

  lemma EndFirst()
    ensures Bye(Called) == Ended
  {
    FirstIs(Called.ops, Called.list, InCall(), 0);
  }

  lemma CleanFirst()
    ensures Create(Ended, Message, true) == Cleaned
  {
    var t := Prepend(Ended, Message);
    assert t.list == [1, 0] && t.ops == [Op(Invite, 0, false, true), Op(Message, 0, false, true)];
    assert [1, 0][1..] == [0] && [0][1..] == [];
    assert Unlinked([1, 0], 0) == [1] + Unlinked([0], 0) == [1];
    var d := Destroy(t, 0);
    assert d == Cleaned;
    assert Clean(t, [0]) == Clean(d, []) == d;
  }

  lemma LeadsToCleaned(call: Event, bye: Event, send: Event, sdp: Sdp)
    requires sdp(1) && call == Do(Call(true, BaseActivation)) && bye == Do(EndCall) && send == Do(Send(Message, true))
    ensures Leads([call] + [bye] + [send], sdp, Cleaned)
  {
    FirstCall(sdp);
    RunOne(Initial, call, sdp);
    assert Leads([call], sdp, Called);
    EndFirst();
    LeadsOn([call], bye, sdp, Called, Ended);
    CleanFirst();
    LeadsOn([call] + [bye], send, sdp, Ended, Cleaned);
  }

  /** A callback is entered for operation 0 after its handle was closed. */
  ghost predicate Dangles(log: seq<Action>) {
    |log| > 4 && log[4] == Closed(0) && exists q :: 4 < q < |log| && log[q] == Notified(0, Active)
  }

  lemma SecondCall(events: seq<Event>, call: Event, s: State, sdp: Sdp)
    requires Leads(events, sdp, s) && s == Cleaned && call == Do(Call(true, BaseActivation))
    ensures Possible(Initial, events + [call], sdp) && Dangles(Run(Initial, events + [call], sdp).log)
  {
    StartReaches(s, sdp, 0);
    DropKeeps(s.log, StartCall(s, true, BaseActivation, sdp).log, Notified(0, Active));
    LeadsOn(events, call, sdp, s, StartCall(s, true, BaseActivation, sdp));
  }

  /**
   * Call, bye, message, call, over the base media: the message cleans the first call's operation away
   * without disconnecting it, and the second call's activation enters the callback of the freed operation.
   */
  lemma DanglingCallback(events: seq<Event>, sdp: Sdp)
    requires events == [Do(Call(true, BaseActivation)), Do(EndCall), Do(Send(Message, true)),
                        Do(Call(true, BaseActivation))]
    requires sdp(1)
    ensures Possible(Initial, events, sdp) && AllBase(events) && Dangles(Run(Initial, events, sdp).log)
  {
    LeadsToCleaned(events[0], events[1], events[2], sdp);
    SecondCall([events[0]] + [events[1]] + [events[2]], events[3], Cleaned, sdp);
    assert events == [events[0]] + [events[1]] + [events[2]] + [events[3]];
  }
}
