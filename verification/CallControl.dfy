/**
 * The call handlers on the linked operation list
 * (Lab/sofsip-cli-0.16/src/ssc_oper.c, ssc_sip.c). Every method is proved to
 * take the state it stands for through the matching function of module Calls.
 */
module CallControl {
  import opened Common
  import opened MediaStates
  import opened CallLaws
  import opened CallSafety
  import opened CallMedia
  import opened OperList
  import C = Calls

  ghost function Ids(chain: seq<Oper>): (r: seq<nat>)
    ensures |r| == |chain| && forall k :: 0 <= k < |r| ==> r[k] == chain[k].id
  {
    if chain == [] then [] else [chain[0].id] + Ids(chain[1..])
  }

  lemma IdsCons(op: Oper, ops: seq<Oper>)
    ensures Ids([op] + ops) == [op.id] + Ids(ops)
  {
    assert ([op] + ops)[1..] == ops;
  }

  lemma IdsTail(ops: seq<Oper>)
    requires ops != []
    ensures Ids(ops) != [] && Ids(ops)[0] == ops[0].id && Ids(ops)[1..] == Ids(ops[1..])
    ensures forall id :: id in Ids(ops[1..]) ==> id in Ids(ops)
  {
    assert Ids(ops)[1..] == Ids(ops[1..]);
  }

  /**
   * ssc_t. `log` is what the stack and the signal system were told, `sdp` the media
   * subsystem's answers to requests for a local SDP, and `made` the stack's handles with
   * the operations bound to them. `model` is the state this object stands for.
   */
  class Ssc {
    const sdp: C.Sdp
    var operations: Oper?
    var media: MediaState
    var watchers: seq<Oper>
    var answer: int
    var log: seq<C.Action>
    var made: seq<Oper>
    ghost var all: set<Oper>
    ghost var chain: seq<Oper>
    ghost var model: C.State

    ghost predicate Owns(op: Oper)
      reads this
    {
      op.id < |made| && made[op.id] == op
    }

    /** Every operation ever made, with its record. */
    ghost predicate Records()
      reads this, all
    {
      && |made| == |model.ops| && (forall op :: op in all ==> Owns(op))
      && (forall i :: 0 <= i < |made| ==> made[i] in all && made[i].id == i && made[i].op == model.ops[i])
    }

    ghost predicate Owned(ops: seq<Oper>)
      reads this
    {
      forall op :: op in ops ==> Owns(op)
    }

    ghost predicate Valid()
      reads this, all
      ensures Valid() ==> C.Tidy(model)
    {
      && Records()
      && Owned(chain) && Nodes(chain) <= all && Chained(operations, chain) && model.list == Ids(chain)
      && Owned(watchers) && model.watchers == Ids(watchers)
      && model.media == media && model.answer == answer && model.log == log
      && (OwnedKnown(chain); OwnedKnown(watchers); true)
    }

    lemma OwnedKnown(ops: seq<Oper>)
      requires Records() && Owned(ops)
      ensures C.Known(model, Ids(ops))
    {
      forall id | id in Ids(ops) ensures id < |model.ops| {
        var k :| 0 <= k < |ops| && Ids(ops)[k] == id;
        assert ops[k] in ops;
      }
    }

    constructor (sdp: C.Sdp)
      ensures Valid() && model == C.Initial && this.sdp == sdp && made == [] && all == {}
    {
      this.sdp := sdp;
      operations, media, watchers, answer, log, made := null, Init, [], 0, [], [];
      all, chain, model := {}, [], C.Initial;
    }

    lemma {:induction false} IdsUnlinked(ops: seq<Oper>, op: Oper)
      requires Owned(ops) && Owns(op)
      ensures Ids(C.Unlinked(ops, op)) == C.Unlinked(Ids(ops), op.id)
      decreases |ops|
    {
      if ops != [] {
        assert ops[0] in ops && forall o :: o in ops[1..] ==> o in ops;
        IdsTail(ops);
        if ops[0] != op {
          assert ops[0].id != op.id;
          IdsUnlinked(ops[1..], op);
        }
      }
    }

    lemma {:induction false} IdsWithout(ops: seq<Oper>, op: Oper)
      requires Owned(ops) && Owns(op)
      ensures Ids(C.Without(ops, op)) == C.Without(Ids(ops), op.id)
      decreases |ops|
    {
      if ops != [] {
        assert ops[0] in ops && forall o :: o in ops[1..] ==> o in ops;
        IdsTail(ops);
        assert ops[0] != op ==> ops[0].id != op.id;
        IdsWithout(ops[1..], op);
      }
    }

    lemma OwnedCons(op: Oper, ops: seq<Oper>)
      requires Owns(op) && Owned(ops)
      ensures Owned([op] + ops)
    {
    }

    lemma OwnedUnlinked(ops: seq<Oper>, op: Oper)
      requires Owned(ops)
      ensures Owned(C.Unlinked(ops, op)) && Nodes(C.Unlinked(ops, op)) <= Nodes(ops)
    {
    }

    lemma OwnedIn(ops: seq<Oper>, op: Oper)
      requires Owned(ops) && Owns(op)
      ensures op in ops <==> op.id in Ids(ops)
    {
      if op.id in Ids(ops) {
        var k :| 0 <= k < |ops| && Ids(ops)[k] == op.id;
        assert ops[k] in ops;
      }
      if k :| 0 <= k < |ops| && ops[k] == op {
        assert Ids(ops)[k] == op.id;
      }
    }

    lemma ChainRecord(k: nat)
      requires Valid() && k < |chain|
      ensures Owns(chain[k]) && model.list[k] == chain[k].id && chain[k].op == model.ops[chain[k].id]
    {
      assert chain[k] in chain;
    }

    lemma LinkedWords()
      requires Valid() && Words(model)
      ensures forall k :: 0 <= k < |chain| ==> Legal(chain[k].op.word)
    {
      forall k | 0 <= k < |chain| ensures Legal(chain[k].op.word) {
        ChainRecord(k);
      }
    }

    lemma InviteListed()
      requires Valid()
      ensures C.HasInvite(model.ops, model.list) <==>
              exists k :: 0 <= k < |chain| && chain[k].op.verb.Invite?
    {
      if k :| 0 <= k < |chain| && chain[k].op.verb.Invite? {
        ChainRecord(k);
        assert model.list[k] in model.list;
      } else if C.HasInvite(model.ops, model.list) {
        var id :| id in model.list && id < |model.ops| && model.ops[id].verb.Invite?;
        var k :| 0 <= k < |model.list| && model.list[k] == id;
        ChainRecord(k);
        assert false;
      }
    }

    // ----- single fields -----

    method SetOp(op: Oper, o: C.Op)
      requires Valid() && Owns(op)
      modifies this`model, op`op
      ensures Valid() && op.op == o
      ensures model == old(model).(ops := old(model).ops[op.id := o])
    {
      op.op := o;
      model := model.(ops := model.ops[op.id := o]);
    }

    method SetWord(op: Oper, word: bv8)
      requires Valid() && Owns(op)
      modifies this`model, op`op
      ensures Valid() && model == C.SetWord(old(model), op.id, word)
    {
      SetOp(op, op.op.(word := word));
    }

    method SetMedia(m: MediaState)
      requires Valid()
      modifies this`media, this`model
      ensures Valid() && model == old(model).(media := m)
    {
      media := m;
      model := model.(media := m);
    }

    method SetAnswer(status: int)
      requires Valid()
      modifies this`answer, this`model
      ensures Valid() && model == old(model).(answer := status)
    {
      answer := status;
      model := model.(answer := status);
    }

    method Note(a: C.Action)
      requires Valid()
      modifies this`log, this`model
      ensures Valid() && model == C.Log(old(model), a)
    {
      log := log + [a];
      model := C.Log(model, a);
    }

    // ----- the operation list -----

    method UnlinkOper(op: Oper)
      requires Valid() && Owns(op)
      modifies this`operations, this`chain, this`model, all`next
      ensures Valid() && made == old(made) && all == old(all)
      ensures model == old(model).(list := C.Unlinked(old(model).list, op.id))
      ensures chain == C.Unlinked(old(chain), op)
    {
      IdsUnlinked(chain, op);
      OwnedUnlinked(chain, op);
      Relink(op);
      model := model.(list := C.Unlinked(model.list, op.id));
    }

    /** The pointers alone. */
    method Relink(op: Oper)
      requires Chained(operations, chain)
      modifies this`operations, this`chain, Nodes(chain)`next
      ensures Chained(operations, chain) && chain == C.Unlinked(old(chain), op)
    {
      operations := Unlink(operations, op, chain);
      chain := C.Unlinked(chain, op);
    }

    method CloseHandle(op: Oper)
      requires Valid() && Owns(op)
      modifies this`operations, this`chain, this`log, this`model, all
      ensures Valid() && model == C.CloseHandle(old(model), op.id)
      ensures chain == C.Unlinked(old(chain), op)
    {
      UnlinkOper(op);
      if op.op.open {
        Note(C.Closed(op.id));
        SetOp(op, op.op.(open := false));
      } else {
        assert model.ops[op.id := op.op.(open := false)] == model.ops;
      }
    }

    /** ssc_oper_destroy. */
    method Destroy(op: Oper)
      requires Valid() && Owns(op)
      modifies this`operations, this`chain, this`log, this`media, this`model, all
      ensures Valid() && model == C.Destroy(old(model), op.id)
      ensures chain == C.Unlinked(old(chain), op)
    {
      CloseHandle(op);
      var invites := CountInvites(operations, chain);
      InviteListed();
      if invites == 0 {
        SetMedia(Disabled);
      }
    }

    method Disconnect(op: Oper)
      requires Valid() && Owns(op)
      modifies this`watchers, this`log, this`model
      ensures Valid() && model == C.Disconnect(old(model), op.id)
    {
      IdsWithout(watchers, op);
      watchers := C.Without(watchers, op);
      model := model.(watchers := Ids(watchers));
      Note(C.Disconnected(op.id));
    }

    /** priv_destroy_oper_with_disconnect. */
    method DestroyDisconnected(op: Oper)
      requires Valid() && Owns(op)
      modifies this`operations, this`chain, this`watchers, this`log, this`media, this`model, all
      ensures Valid() && model == C.DestroyDisconnected(old(model), op.id)
    {
      Disconnect(op);
      Destroy(op);
    }

    method Prepend(m: C.SipMethod) returns (op: Oper)
      requires Valid()
      modifies this`operations, this`made, this`all, this`chain, this`model
      ensures Valid() && fresh(op) && Owns(op)
      ensures all == old(all) + {op} && chain == [op] + old(chain) && op.id == |old(model).ops|
      ensures model == C.Prepend(old(model), m)
    {
      op := Push(operations, |made|, C.Op(m, 0, C.Persistent(m), true), chain);
      Enrol(op);
      Link(op);
    }

    /** Puts an operation whose node already points to the first one in front. */
    method Link(op: Oper)
      requires Valid() && Owns(op) && op in all && Chained(op, [op] + chain)
      modifies this`operations, this`chain, this`model
      ensures Valid() && chain == [op] + old(chain)
      ensures model == old(model).(list := [op.id] + old(model).list)
    {
      ghost var longer := [op] + chain;
      IdsCons(op, chain);
      NodesCons(op, chain);
      OwnedCons(op, chain);
      operations, chain := op, longer;
      model := model.(list := [op.id] + model.list);
    }

    /** Binds a new node to a handle. */
    method Enrol(op: Oper)
      requires Valid() && op !in all && op.id == |made|
      modifies this`made, this`all, this`model
      ensures Valid() && Owns(op) && all == old(all) + {op}
      ensures model == old(model).(ops := old(model).ops + [op.op])
    {
      made, all := made + [op], all + {op};
      model := model.(ops := model.ops + [op.op]);
    }

    /** The loop of ssc_oper_create that cleans old operations, from `first` on. */
    method Clean(first: Oper?, ghost front: seq<Oper>, ghost todo: seq<Oper>)
      requires Valid() && chain == front + todo && first == At(todo, 0)
      requires C.Known(model, Ids(todo))
      modifies this`operations, this`chain, this`log, this`media, this`model, all
      ensures Valid() && model == C.Clean(old(model), Ids(todo))
    {
      var cur := first;
      ghost var kept, left := front, todo;
      while cur != null
        invariant Valid() && chain == kept + left && cur == At(left, 0)
        invariant C.Known(model, Ids(left))
        invariant C.Clean(model, Ids(left)) == C.Clean(old(model), Ids(todo))
        decreases |left|
      {
        kept, left, cur := CleanOne(cur, kept, left);
      }
    }

    method CleanOne(cur: Oper, ghost kept: seq<Oper>, ghost left: seq<Oper>)
      returns (ghost kept': seq<Oper>, ghost left': seq<Oper>, next: Oper?)
      requires Valid() && chain == kept + left && cur == At(left, 0) && C.Known(model, Ids(left))
      modifies this`operations, this`chain, this`log, this`media, this`model, all
      ensures Valid() && chain == kept' + left' && left' == left[1..] && next == At(left', 0)
      ensures C.Known(model, Ids(left')) && |model.ops| == |old(model).ops|
      ensures C.Clean(model, Ids(left')) == C.Clean(old(model), Ids(left))
    {
      left' := left[1..];
      Standing(kept, left);
      next := cur.next;
      ChainRecord(|kept|);
      IdsTail(left);
      if !cur.op.persistent && cur.op.word == 0 {
        kept' := kept;
        UnlinkedIs(kept, cur, left');
        Destroy(cur);
      } else {
        kept' := kept + [cur];
      }
    }

    /** The ssc_oper_find walks. */
    method FindOper(wanted: C.Op -> bool) returns (found: Oper?, ghost k: nat)
      requires Valid()
      ensures found != null ==> Owns(found)
      ensures C.First(model.ops, model.list, wanted) == if found == null then None else Some(found.id)
      ensures k <= |chain| && found == At(chain, k)
      ensures forall j :: 0 <= j < k ==> !wanted(chain[j].op)
    {
      found, k := Find(operations, wanted, chain);
      forall j | 0 <= j <= k && j < |chain|
        ensures Owns(chain[j]) && model.list[j] == chain[j].id && chain[j].op == model.ops[model.list[j]]
      {
        ChainRecord(j);
      }
      FirstIs(model.ops, model.list, wanted, k);
    }

    /** FindOper, without the place. */
    method FirstOper(wanted: C.Op -> bool) returns (found: Oper?)
      requires Valid()
      ensures found != null ==> Owns(found)
      ensures C.First(model.ops, model.list, wanted) == if found == null then None else Some(found.id)
    {
      ghost var k;
      found, k := FindOper(wanted);
    }

    /** ssc_oper_create with a destination. */
    method Create(m: C.SipMethod, valid: bool) returns (op: Oper?)
      requires Valid()
      modifies this`operations, this`made, this`all, this`chain, this`log, this`media, this`model, all
      ensures Valid() && all >= old(all) && fresh(all - old(all))
      ensures model == C.Create(old(model), m, valid)
      ensures if valid then op != null && Owns(op) && op.id == |old(model).ops| else op == null
    {
      var first, k := FindOper(C.Transient());
      op := null;
      if valid {
        op := CreateBefore(m, first, k);
      }
    }

    /** ssc_oper_create once the address is known to be good; `first` is the first transient operation. */
    method CreateBefore(m: C.SipMethod, first: Oper?, ghost k: nat) returns (op: Oper)
      requires Valid()
      requires k <= |chain| && first == At(chain, k) && forall j :: 0 <= j < k ==> chain[j].op.persistent
      modifies this`operations, this`made, this`all, this`chain, this`log, this`media, this`model, all
      ensures Valid() && all >= old(all) && fresh(all - old(all))
      ensures model == C.Create(old(model), m, true)
      ensures Owns(op) && op.id == |old(model).ops|
    {
      ghost var list := chain;
      SkipPrefix(m, k);
      op := Prepend(m);
      if !C.Persistent(m) {
        SplitAt(op, list, k);
        Clean(first, [op] + list[..k], list[k..]);
      }
    }

    lemma SkipPrefix(m: C.SipMethod, k: nat)
      requires Valid() && k <= |chain|
      requires forall j :: 0 <= j < k ==> chain[j].op.persistent
      ensures var s := C.Prepend(model, m);
              && C.Known(s, Ids(chain[k..])) && C.Known(s, model.list)
              && C.Clean(s, model.list) == C.Clean(s, Ids(chain[k..]))
    {
      var s := C.Prepend(model, m);
      forall j | 0 <= j < k ensures model.list[j] < |s.ops| && s.ops[model.list[j]].persistent {
        ChainRecord(j);
      }
      assert Ids(chain[k..]) == model.list[k..];
      CleanSkips(s, model.list, k);
    }

    // ----- media signals -----

    method Offer(op: Oper, ready: bool)
      requires Valid() && Owns(op)
      modifies this`operations, this`chain, this`watchers, this`log, this`media, this`model, all
      ensures Valid() && model == C.Offer(old(model), op.id, ready)
    {
      SetWord(op, 0);
      if ready {
        Note(C.InviteSent(op.id));
        SetWord(op, op.op.word | C.SENT);
        SetTwice(old(model), op.id);
      } else {
        DestroyDisconnected(op);
      }
    }

    lemma SetTwice(s: C.State, id: nat)
      requires id < |s.ops|
      ensures C.SetWord(C.Log(C.SetWord(s, id, 0), C.InviteSent(id)), id, 0 | C.SENT) ==
              C.SetWord(C.Log(s, C.InviteSent(id)), id, C.SENT)
    {
      var sent := s.ops[id].(word := C.SENT);
      assert s.ops[id := s.ops[id].(word := 0)][id := sent] == s.ops[id := sent];
    }

    method Respond(op: Oper, ready: bool)
      requires Valid() && Owns(op)
      modifies this`log, this`model, op`op
      ensures Valid() && model == C.Respond(old(model), op.id, ready)
    {
      if ready {
        Note(C.Responded(op.id, answer));
        if C.Success(answer) {
          SetWord(op, op.op.word | C.SENT);
        } else {
          SetWord(op, 0);
        }
      } else {
        Note(C.Responded(op.id, 500));
        SetWord(op, 0);
      }
    }

    /** priv_media_state_cb. */
    method MediaStateChanged(op: Oper, signal: MediaState)
      requires Valid() && Owns(op)
      modifies this`operations, this`chain, this`watchers, this`log, this`media, this`model, all
      ensures Valid() && model == C.Callback(old(model), op.id, signal, sdp)
    {
      var ready := sdp(|log|);
      Note(C.Notified(op.id, signal));
      React(op, signal, ready);
    }

    method React(op: Oper, signal: MediaState, ready: bool)
      requires Valid() && Owns(op)
      modifies this`operations, this`chain, this`watchers, this`log, this`media, this`model, all
      ensures Valid() && model == C.React(old(model), op.id, signal, ready)
    {
      if signal == LocalReady || signal == Active {
        if C.Has(op.op.word, C.PENDING) && media != Disabled {
          Offer(op, ready);
        } else if C.Has(op.op.word, C.RECV) {
          Respond(op, ready);
        }
      } else if signal == Error {
        SetMedia(Disabled);
        DestroyDisconnected(op);
      }
    }

    /** The emission of "state-changed" to the connections there are when it starts. */
    method Emit(signal: MediaState)
      requires Valid()
      modifies this`operations, this`chain, this`watchers, this`log, this`media, this`model, all
      ensures Valid() && model == C.Emit(old(model), signal, old(model).watchers, sdp)
    {
      var todo := watchers;
      while todo != []
        invariant Valid() && Owned(todo) && C.Known(model, Ids(todo))
        invariant C.Emit(model, signal, Ids(todo), sdp) == C.Emit(old(model), signal, old(model).watchers, sdp)
        decreases |todo|
      {
        EmitOne(signal, todo);
        todo := todo[1..];
      }
    }

    method EmitOne(signal: MediaState, todo: seq<Oper>)
      requires Valid() && todo != [] && Owned(todo) && C.Known(model, Ids(todo))
      modifies this`operations, this`chain, this`watchers, this`log, this`media, this`model, all
      ensures Valid() && Owned(todo[1..]) && C.Known(model, Ids(todo[1..]))
      ensures C.Emit(model, signal, Ids(todo[1..]), sdp) == C.Emit(old(model), signal, Ids(todo), sdp)
    {
      IdsTail(todo);
      assert todo[0] in todo && forall o :: o in todo[1..] ==> o in todo;
      OwnedIn(watchers, todo[0]);
      if todo[0] in watchers {
        MediaStateChanged(todo[0], signal);
      }
    }

    /** ssc_media_signal_state_change. */
    method SignalStateChange(signal: MediaState)
      requires Valid()
      modifies this`operations, this`chain, this`watchers, this`log, this`media, this`model, all
      ensures Valid() && model == C.Signal(old(model), signal, sdp)
    {
      if media != signal {
        SetMedia(signal);
        Emit(signal);
      }
    }

    /** ssc_media_activate. */
    method ActivateMedia(act: C.Activation) returns (failed: bool)
      requires Valid()
      modifies this`operations, this`chain, this`watchers, this`log, this`media, this`model, all
      ensures Valid() && model == C.Signals(old(model), act.signals, sdp) && failed == act.failed
    {
      var todo := act.signals;
      while todo != []
        invariant Valid()
        invariant C.Signals(model, todo, sdp) == C.Signals(old(model), act.signals, sdp)
        decreases |todo|
      {
        SignalStateChange(todo[0]);
        todo := todo[1..];
      }
      failed := act.failed;
    }

    method Connect(op: Oper)
      requires Valid() && Owns(op)
      modifies this`watchers, this`log, this`model
      ensures Valid() && model == C.Connect(old(model), op.id)
    {
      assert Ids(watchers + [op]) == Ids(watchers) + [op.id];
      watchers := watchers + [op];
      model := model.(watchers := Ids(watchers));
      Note(C.Connected(op.id));
    }

    /** Connects `op` to the media signal and activates the media. */
    method Activate(op: Oper, act: C.Activation)
      requires Valid() && Owns(op)
      modifies this`operations, this`chain, this`watchers, this`log, this`media, this`model, all
      ensures Valid() && model == C.Activate(old(model), op.id, act, sdp)
    {
      Connect(op);
      var failed := ActivateMedia(act);
      if failed {
        DestroyDisconnected(op);
      }
    }

    // ----- commands -----

    /** ssc_invite. */
    method Invite(valid: bool, act: C.Activation)
      requires Valid()
      modifies this, all
      ensures Valid() && model == C.StartCall(old(model), valid, act, sdp)
      ensures all >= old(all) && fresh(all - old(all))
    {
      var op := Create(C.Invite, valid);
      if op != null {
        SetWord(op, op.op.word | C.PENDING);
        Activate(op, act);
      }
    }

    /** ssc_answer. */
    method Answer(status: int, act: C.Activation)
      requires Valid()
      modifies this`answer, this`operations, this`chain, this`watchers, this`log, this`media, this`model, all
      ensures Valid() && model == C.Answer(old(model), status, act, sdp)
    {
      var op := FirstOper(C.Unanswered());
      if op != null {
        SetAnswer(status);
        if C.Success(status) {
          Activate(op, act);
        } else {
          TurnDown(op, status);
        }
      }
    }

    /** A call that is turned down. */
    method TurnDown(op: Oper, status: int)
      requires Valid() && Owns(op)
      modifies this`operations, this`chain, this`watchers, this`log, this`media, this`model, all
      ensures Valid() && model == C.DestroyDisconnected(C.Log(old(model), C.Responded(op.id, status)), op.id)
    {
      Note(C.Responded(op.id, status));
      DestroyDisconnected(op);
    }

    /** ssc_bye. */
    method Bye()
      requires Valid()
      modifies this`log, this`model, all`op
      ensures Valid() && model == C.Bye(old(model))
    {
      var op := FirstOper(C.InCall());
      if op != null {
        Note(C.ByeSent(op.id));
        SetWord(op, 0);
      }
    }

    /** ssc_zap. */
    method Zap()
      requires Valid()
      modifies this`operations, this`chain, this`watchers, this`log, this`media, this`model, all
      ensures Valid() && model == C.Zap(old(model))
    {
      var op := FirstOper(C.Transient());
      if op != null {
        DestroyDisconnected(op);
      }
    }

    /** ssc_notify. */
    method Notify()
      requires Valid()
      modifies this`operations, this`chain, this`log, this`media, this`model, all
      ensures Valid() && model == C.Decline(old(model))
    {
      var op := FirstOper(C.Embryonic());
      if op != null {
        Destroy(op);
      }
    }

    /** The requests that reuse an operation if there is one: refer, register, publish. */
    method Request(wanted: C.Op -> bool, m: C.SipMethod, valid: bool)
      requires Valid()
      modifies this, all
      ensures Valid() && model == C.CreateUnless(old(model), wanted, m, valid)
      ensures all >= old(all) && fresh(all - old(all))
    {
      var op := FirstOper(wanted);
      if op == null {
        op := Create(m, valid);
      }
    }

    // ----- events of the SIP stack -----

    /** ssc_i_invite. */
    method IncomingInvite(known: Oper?, auto: bool, act: C.Activation)
      requires Valid() && (known != null ==> Owns(known))
      modifies this, all
      ensures Valid() && all >= old(all) && fresh(all - old(all))
      ensures model == C.Ring(old(model), if known == null then None else Some(known.id), auto, act, sdp)
    {
      var op := Receive(known);
      if op.op.word == C.RECV && auto {
        Answer(200, act);
      }
    }

    /** Marks the call as received, on its operation or on a new one. */
    method Receive(known: Oper?) returns (op: Oper)
      requires Valid() && (known != null ==> Owns(known))
      modifies this`operations, this`made, this`all, this`chain, this`model, all
      ensures Valid() && all >= old(all) && fresh(all - old(all)) && Owns(op)
      ensures op.id == if known == null then |old(model).ops| else known.id
      ensures model == C.IncomingCall(old(model), if known == null then None else Some(known.id))
    {
      if known != null {
        op := known;
        SetWord(op, op.op.word | C.RECV);
      } else {
        op := Prepend(C.Invite);
        SetWord(op, C.RECV);
      }
    }

    /** ssc_r_invite. */
    method InviteResult(op: Oper, status: int)
      requires Valid() && Owns(op)
      modifies this`model, op`op
      ensures Valid()
      ensures model == if status >= 300 then C.SetWord(old(model), op.id, old(model).ops[op.id].word & !C.SENT)
                       else old(model)
    {
      if status >= 300 {
        SetWord(op, op.op.word & !C.SENT);
      }
    }

    /** ssc_i_state, terminated. */
    method Terminated(op: Oper)
      requires Valid() && Owns(op)
      modifies this`operations, this`chain, this`watchers, this`log, this`media, this`model, all
      ensures Valid() && model == C.Hangup(old(model), op.id)
    {
      SetWord(op, 0);
      DestroyDisconnected(op);
      if media != Disabled {
        SetMedia(Disabled);
      }
    }

    /** ssc_i_state, ready. */
    method Established(op: Oper)
      requires Valid() && Owns(op)
      modifies this`model, op`op
      ensures Valid() && model == C.SetWord(old(model), op.id, C.ACTIVE)
    {
      SetWord(op, C.ACTIVE);
    }

    /** The final answers to REGISTER, un-REGISTER, un-SUBSCRIBE and PUBLISH. */
    method EndIf(op: Oper, ends: bool)
      requires Valid() && Owns(op)
      modifies this`operations, this`chain, this`log, this`media, this`model, all
      ensures Valid() && model == C.EndIf(old(model), op.id, ends)
    {
      if ends {
        Destroy(op);
      }
    }

    /** ssc_r_subscribe. */
    method SubscribeResult(op: Oper, status: int)
      requires Valid() && Owns(op)
      modifies this`model, op`op
      ensures Valid()
      ensures model == if status >= 300
                       then old(model).(ops := old(model).ops[op.id := old(model).ops[op.id].(persistent := false)])
                       else old(model)
    {
      if status >= 300 {
        SetOp(op, op.op.(persistent := false));
      }
    }

    // ----- whole runs

    /** One command of the user. */
    method Obey(c: C.Command)
      requires Valid()
      modifies this, all
      ensures Valid() && model == C.Obey(old(model), c, sdp)
      ensures all >= old(all) && fresh(all - old(all))
    {
      match c
      case Call(valid, act) => Invite(valid, act);
      case Reply(status, act) => Answer(status, act);
      case EndCall => Bye();
      case ZapFirst => Zap();
      case Reject => Notify();
      case _ => Submit(c);
    }

    /** The commands that send a request outside a call. */
    method Submit(c: C.Command)
      requires Valid() && (c.Send? || c.SendRefer? || c.SendRegister? || c.SendPublish?)
      modifies this, all
      ensures Valid() && model == C.Obey(old(model), c, sdp)
      ensures all >= old(all) && fresh(all - old(all))
    {
      match c
      case Send(m, valid) => var _ := Create(m, valid);
      case SendRefer(valid) => Request(C.InCall(), C.Refer, valid);
      case SendRegister(registrar, valid) =>
        if registrar {
          var _ := Create(C.Register, valid);
        } else {
          Request(C.Lasting(C.Register), C.Register, valid);
        }
      case SendPublish(valid) => Request(C.Lasting(C.Publish), C.Publish, valid);
    }

    /** One event of the SIP stack, on the operation bound to its handle. */
    method Take(e: C.StackEvent)
      requires Valid() && C.Deliverable(model, e)
      modifies this, all
      ensures Valid() && model == C.Take(old(model), e, sdp)
      ensures all >= old(all) && fresh(all - old(all))
    {
      match e
      case GotInvite(op, auto, act) => IncomingInvite(if op.None? then null else made[op.value], auto, act);
      case GotRequest(m) => var _ := Prepend(m);
      case GotRefer(sip, valid) =>
        if sip {
          var _ := Create(C.Invite, valid);
        }
      case _ => Follow(e);
    }

    /** The events that name an operation. */
    method Follow(e: C.StackEvent)
      requires Valid() && C.Deliverable(model, e) && !e.GotInvite? && !e.GotRequest? && !e.GotRefer?
      modifies this`operations, this`chain, this`watchers, this`log, this`media, this`model, all
      ensures Valid() && model == C.Take(old(model), e, sdp)
    {
      assert e.id < |made| && Owns(made[e.id]);
      var op := made[e.id];
      match e
      case InviteResult(_, status) => InviteResult(op, status);
      case CallReady(_) => Established(op);
      case CallTerminated(_) => Terminated(op);
      case SubscribeResult(_, status) => SubscribeResult(op, status);
      case UnsubscribeResult(_, _) => EndIf(op, C.Ends(e));
      case RegisterResult(_, _) => EndIf(op, C.Ends(e));
      case UnregisterResult(_, _) => EndIf(op, C.Ends(e));
      case PublishResult(_, _, _) => EndIf(op, C.Ends(e));
    }

    /** One command, stack event or media signal. */
    method Handle(e: C.Event)
      requires Valid() && C.Enabled(model, e)
      modifies this, all
      ensures Valid() && model == C.Step(old(model), e, sdp)
      ensures all >= old(all) && fresh(all - old(all))
    {
      match e
      case Do(c) => Obey(c);
      case Got(ev) => Take(ev);
      case MediaSignal(signal) => SignalStateChange(signal);
    }
  }

  method RunAll(sdp: C.Sdp, events: seq<C.Event>) returns (ssc: Ssc)
    requires C.Possible(C.Initial, events, sdp)
    ensures ssc.Valid() && ssc.model == C.Run(C.Initial, events, sdp)
  {
    ssc := new Ssc(sdp);
    var i := 0;
    assert events[0..] == events;
    while i < |events|
      invariant i <= |events| && ssc.Valid() && fresh(ssc) && fresh(ssc.all) && ssc.sdp == sdp
      invariant C.Possible(ssc.model, events[i..], sdp)
      invariant C.Run(ssc.model, events[i..], sdp) == C.Run(C.Initial, events, sdp)
    {
      NextEvent(ssc.model, events, i, sdp);
      ssc.Handle(events[i]);
      i := i + 1;
    }
    assert events[i..] == [];
  }

  lemma NextEvent(s: C.State, events: seq<C.Event>, i: nat, sdp: C.Sdp)
    requires C.Tidy(s) && i < |events| && C.Possible(s, events[i..], sdp)
    ensures C.Enabled(s, events[i]) && C.Possible(C.Step(s, events[i], sdp), events[i + 1..], sdp)
    ensures C.Run(s, events[i..], sdp) == C.Run(C.Step(s, events[i], sdp), events[i + 1..], sdp)
  {
    assert events[i..][1..] == events[i + 1..];
  }

  /**
   * Any run from the start, on the nodes. The operations are linked in a chain without cycle, each once,
   * in the machine's order. The log is lawful: no INVITE is sent twice, outside a callback for a ready
   * signal, or after a disconnect or close. Over the base media the words are legal and, if no event
   * answers while no INVITE operation is listed, media is active only if an INVITE operation is linked.
   */
  method Session(sdp: C.Sdp, events: seq<C.Event>) returns (ssc: Ssc)
    requires C.Possible(C.Initial, events, sdp)
    ensures ssc.Valid() && ssc.model == C.Run(C.Initial, events, sdp)
    ensures Chained(ssc.operations, ssc.chain) && Ids(ssc.chain) == ssc.model.list
    ensures Lawful(ssc.log)
    ensures forall q, p :: 0 <= q < p < |ssc.log| && ssc.log[p].InviteSent? ==> ssc.log[q] != ssc.log[p]
    ensures AllBase(events) ==> forall k :: 0 <= k < |ssc.chain| ==> Legal(ssc.chain[k].op.word)
    ensures AllBase(events) && NeverAnswersAlone(C.Initial, events, sdp) ==> InStep(ssc.model)
    ensures AllBase(events) && NeverAnswersAlone(C.Initial, events, sdp) && ssc.media == Active ==>
              exists k :: 0 <= k < |ssc.chain| && ssc.chain[k].op.verb.Invite?
  {
    ssc := RunAll(sdp, events);
    RunSound(C.Initial, events, sdp);
    SentAtMostOnce(ssc.log);
    if AllBase(events) {
      RunWords(C.Initial, events, sdp);
      ssc.LinkedWords();
      if NeverAnswersAlone(C.Initial, events, sdp) {
        MediaFollowsCalls(events, sdp);
        ssc.InviteListed();
      }
    }
  }
}
