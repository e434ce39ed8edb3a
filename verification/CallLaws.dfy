/** What every run of the machine of module Calls keeps. */
module CallLaws {
  import opened Common
  import opened MediaStates
  import opened Calls

  // ----- creation: the list law -----

  predicate Distinct<T(==)>(list: seq<T>) {
    forall i, j :: 0 <= i < j < |list| ==> list[i] != list[j]
  }

  /** The operations of `ids` that a cleaning keeps, in order. */
  function Kept(ops: seq<Op>, ids: seq<nat>): seq<nat>
    requires forall id :: id in ids ==> id < |ops|
  {
    if ids == [] then []
    else
      assert ids[0] in ids && forall id :: id in ids[1..] ==> id in ids;
      if Keeps(ops[ids[0]]) then [ids[0]] + Kept(ops, ids[1..]) else Kept(ops, ids[1..])
  }

  function Dropped(ops: seq<Op>, ids: seq<nat>): (r: seq<nat>)
    requires forall id :: id in ids ==> id < |ops|
    ensures forall id :: id in r <==> id in ids && !Keeps(ops[id])
  {
    if ids == [] then []
    else
      assert ids[0] in ids && forall id :: id in ids[1..] ==> id in ids;
      if Keeps(ops[ids[0]]) then Dropped(ops, ids[1..]) else [ids[0]] + Dropped(ops, ids[1..])
  }

  function Closings(ids: seq<nat>): seq<Action> {
    if ids == [] then [] else [Closed(ids[0])] + Closings(ids[1..])
  }

  lemma {:induction false} UnlinkedIs<T>(front: seq<T>, id: T, rest: seq<T>)
    requires id !in front
    ensures Unlinked(front + [id] + rest, id) == front + rest
  {
    var whole := front + [id] + rest;
    if front == [] {
      assert whole == [id] + rest && whole[1..] == rest && front + rest == rest;
    } else {
      var x, more := front[0], front[1..];
      assert x in front && forall y :: y in more ==> y in front;
      assert whole[0] == x && whole[1..] == more + [id] + rest;
      assert Unlinked(whole, id) == [x] + Unlinked(whole[1..], id);
      UnlinkedIs(more, id, rest);
      Reassociate([x], more, rest);
      assert [x] + more == front;
    }
  }

  /** `t` differs from `s` at most in which handles are open. */
  predicate SameButOpen(s: seq<Op>, t: seq<Op>) {
    |s| == |t| && forall id :: 0 <= id < |s| ==> t[id].(open := s[id].open) == s[id]
  }

  lemma {:induction false} KeptSame(s: seq<Op>, t: seq<Op>, ids: seq<nat>)
    requires SameButOpen(s, t) && forall id :: id in ids ==> id < |s|
    ensures Kept(s, ids) == Kept(t, ids) && Dropped(s, ids) == Dropped(t, ids)
  {
    if ids != [] {
      assert ids[0] in ids && forall id :: id in ids[1..] ==> id in ids;
      KeptSame(s, t, ids[1..]);
      assert t[ids[0]].(open := s[ids[0]].open) == s[ids[0]];
    }
  }

  /** One destroy of the cleaning loop takes `id` out from behind `front`. */
  lemma DropStep(s: State, front: seq<nat>, id: nat, rest: seq<nat>)
    requires s.list == front + [id] + rest && Distinct(s.list)
    requires id < |s.ops| && s.ops[id].open
    ensures var t := Destroy(s, id);
            && t.list == front + rest && Distinct(t.list)
            && t.log == s.log + [Closed(id)]
            && t.ops == s.ops[id := s.ops[id].(open := false)] && SameButOpen(s.ops, t.ops)
            && t.answer == s.answer
            && t.media == (if HasInvite(t.ops, t.list) then s.media else Disabled)
    ensures id !in front && id !in rest
  {
    assert s.list[|front|] == id;
    forall k | 0 <= k < |front| ensures front[k] != id {
      assert s.list[k] == front[k];
    }
    forall k | 0 <= k < |rest| ensures rest[k] != id {
      assert s.list[|front| + 1 + k] == rest[k];
    }
    UnlinkedIs(front, id, rest);
    DistinctWithout(front, id, rest);
  }

  lemma DistinctWithout<T>(front: seq<T>, id: T, rest: seq<T>)
    requires Distinct(front + [id] + rest)
    ensures Distinct(front + rest)
  {
    var a, b := front + [id] + rest, front + rest;
    forall i, j | 0 <= i < j < |b| ensures b[i] != b[j] {
      var i', j' := if i < |front| then i else i + 1, if j < |front| then j else j + 1;
      assert b[i] == a[i'] && b[j] == a[j'];
    }
  }

  predicate Cleanable(s: State, front: seq<nat>, todo: seq<nat>) {
    && s.list == front + todo && Distinct(s.list)
    && (forall id :: id in todo ==> id < |s.ops| && s.ops[id].open)
  }

  /** The two ways a turn of the cleaning loop goes, with what is left to clean. */
  lemma CleanTurn(s: State, front: seq<nat>, todo: seq<nat>)
    requires Cleanable(s, front, todo) && todo != []
    ensures todo[0] < |s.ops| && forall id :: id in todo[1..] ==> id < |s.ops|
    ensures Keeps(s.ops[todo[0]]) ==> Cleanable(s, front + [todo[0]], todo[1..])
    ensures !Keeps(s.ops[todo[0]]) ==>
              var t := Destroy(s, todo[0]);
              && Cleanable(t, front, todo[1..])
              && t.log == s.log + [Closed(todo[0])]
              && t.ops == s.ops[todo[0] := s.ops[todo[0]].(open := false)] && SameButOpen(s.ops, t.ops)
              && t.answer == s.answer
              && t.media == (if HasInvite(t.ops, t.list) then s.media else Disabled)
  {
    var id, rest := todo[0], todo[1..];
    assert id in todo && forall x :: x in rest ==> x in todo;
    assert s.list == front + [id] + rest;
    DropStep(s, front, id, rest);
  }

  lemma {:induction false} CleanList(s: State, front: seq<nat>, todo: seq<nat>)
    requires Cleanable(s, front, todo)
    ensures Clean(s, todo).list == front + Kept(s.ops, todo)
    decreases |todo|
  {
    if todo == [] {
      assert front + Kept(s.ops, todo) == front;
    } else {
      var id, rest := todo[0], todo[1..];
      CleanTurn(s, front, todo);
      KeptTurn(s.ops, todo);
      if Keeps(s.ops[id]) {
        CleanList(s, front + [id], rest);
        Reassociate(front, [id], Kept(s.ops, rest));
      } else {
        var t := Destroy(s, id);
        CleanList(t, front, rest);
        KeptSame(s.ops, t.ops, rest);
      }
    }
  }

  lemma {:induction false} CleanLog(s: State, front: seq<nat>, todo: seq<nat>)
    requires Cleanable(s, front, todo)
    ensures Clean(s, todo).log == s.log + Closings(Dropped(s.ops, todo))
    decreases |todo|
  {
    if todo == [] {
      assert s.log + Closings([]) == s.log;
    } else {
      var id, rest := todo[0], todo[1..];
      CleanTurn(s, front, todo);
      KeptTurn(s.ops, todo);
      if Keeps(s.ops[id]) {
        CleanLog(s, front + [id], rest);
      } else {
        var t := Destroy(s, id);
        CleanLog(t, front, rest);
        KeptSame(s.ops, t.ops, rest);
        var dropped := Dropped(s.ops, rest);
        assert ([id] + dropped)[1..] == dropped;
        Reassociate(s.log, [Closed(id)], Closings(dropped));
      }
    }
  }

  lemma KeptTurn(ops: seq<Op>, ids: seq<nat>)
    requires ids != [] && forall id :: id in ids ==> id < |ops|
    ensures ids[0] < |ops| && forall id :: id in ids[1..] ==> id < |ops|
    ensures var id, rest := ids[0], ids[1..];
            && Kept(ops, ids) == (if Keeps(ops[id]) then [id] + Kept(ops, rest) else Kept(ops, rest))
            && Dropped(ops, ids) == (if Keeps(ops[id]) then Dropped(ops, rest) else [id] + Dropped(ops, rest))
  {
    assert ids[0] in ids && forall id :: id in ids[1..] ==> id in ids;
  }

  lemma {:induction false} NothingToClean(s: State, todo: seq<nat>)
    requires Known(s, todo) && Dropped(s.ops, todo) == []
    ensures Clean(s, todo) == s
  {
    if todo != [] {
      KeptTurn(s.ops, todo);
      NothingToClean(s, todo[1..]);
    }
  }

  lemma {:induction false} CleanOps(s: State, front: seq<nat>, todo: seq<nat>, x: nat)
    requires Cleanable(s, front, todo) && x < |s.ops|
    ensures Clean(s, todo).ops[x] ==
            if x in Dropped(s.ops, todo) then s.ops[x].(open := false) else s.ops[x]
    ensures Clean(s, todo).answer == s.answer
    decreases |todo|
  {
    if todo != [] {
      var id, rest := todo[0], todo[1..];
      CleanTurn(s, front, todo);
      KeptTurn(s.ops, todo);
      if Keeps(s.ops[id]) {
        CleanOps(s, front + [id], rest, x);
      } else {
        CleanOps(Destroy(s, id), front, rest, x);
        KeptSame(s.ops, Destroy(s, id).ops, rest);
      }
    }
  }

  lemma {:induction false} CleanMedia(s: State, front: seq<nat>, todo: seq<nat>)
    requires Cleanable(s, front, todo)
    ensures var r := Clean(s, todo);
            r.media == (if Dropped(s.ops, todo) != [] && !HasInvite(s.ops, r.list)
                        then Disabled else s.media)
    decreases |todo|
  {
    if todo != [] {
      var id, rest := todo[0], todo[1..];
      CleanTurn(s, front, todo);
      KeptTurn(s.ops, todo);
      if Keeps(s.ops[id]) {
        CleanMedia(s, front + [id], rest);
      } else {
        var t := Destroy(s, id);
        CleanMedia(t, front, rest);
        KeptSame(s.ops, t.ops, rest);
        if Dropped(t.ops, rest) == [] {
          NothingToClean(t, rest);
        }
        InvitesAgree(s.ops, t.ops, t.list);
        InvitesAgree(s.ops, t.ops, Clean(t, rest).list);
        assert HasInvite(t.ops, Clean(t, rest).list) ==> HasInvite(t.ops, t.list);
      }
    }
  }

  lemma InvitesAgree(s: seq<Op>, t: seq<Op>, list: seq<nat>)
    requires SameButOpen(s, t)
    ensures HasInvite(s, list) == HasInvite(t, list)
  {
    forall id | id in list && id < |s| ensures t[id].verb == s[id].verb {
      assert t[id].(open := s[id].open) == s[id];
    }
  }

  /** The search stops at the first position whose operation is wanted. */
  lemma {:induction false} FirstIs(ops: seq<Op>, list: seq<nat>, wanted: Op -> bool, k: nat)
    requires k <= |list| && forall j :: 0 <= j < k ==> list[j] < |ops| && !wanted(ops[list[j]])
    requires k < |list| ==> list[k] < |ops| && wanted(ops[list[k]])
    ensures First(ops, list, wanted) == if k < |list| then Some(list[k]) else None
  {
    if k > 0 {
      FirstIs(ops, list[1..], wanted, k - 1);
    }
  }

  /** Cleaning passes over a prefix of persistent operations. */
  lemma {:induction false} CleanSkips(s: State, todo: seq<nat>, k: nat)
    requires Known(s, todo) && k <= |todo|
    requires forall j :: 0 <= j < k ==> todo[j] < |s.ops| && s.ops[todo[j]].persistent
    ensures Known(s, todo[k..]) && Clean(s, todo) == Clean(s, todo[k..])
  {
    if k > 0 {
      assert forall id :: id in todo[1..] ==> id in todo;
      CleanSkips(s, todo[1..], k - 1);
      assert todo[1..][k - 1..] == todo[k..];
    } else {
      assert todo[0..] == todo;
    }
  }

  /**
   * Creating an operation. An invalid address changes nothing; a persistent
   * operation is only put in front; any other is followed by exactly the old
   * operations that are persistent or in a call, in order, the handles closed
   * are exactly those of the others, and media stops when a destroyed operation
   * leaves no INVITE.
   */
  ghost predicate CreationLaw(s: State, m: SipMethod)
    requires Tidy(s)
  {
    var r := Create(s, m, true);
    var dropped := if Persistent(m) then [] else Dropped(s.ops, s.list);
    && Create(s, m, false) == s
    && |r.ops| == |s.ops| + 1
    && r.ops[|s.ops|] == Op(m, 0, Persistent(m), true)
    && r.list == [|s.ops|] + (if Persistent(m) then s.list else Kept(s.ops, s.list))
    && r.log == s.log + Closings(dropped)
    && (forall id :: 0 <= id < |s.ops| ==>
          r.ops[id] == if id in dropped then s.ops[id].(open := false) else s.ops[id])
    && r.media == (if dropped != [] && !HasInvite(r.ops, r.list) then Disabled else s.media)
    && r.watchers == s.watchers && r.answer == s.answer
  }

  lemma CreateLaw(s: State, m: SipMethod)
    requires Tidy(s) && Distinct(s.list) && forall id :: id in s.list ==> s.ops[id].open
    ensures CreationLaw(s, m)
  {
    assert s.log + Closings([]) == s.log;
    if !Persistent(m) {
      var t := Prepend(s, m);
      var front := [|s.ops|];
      PrependCleanable(s, m);
      CleanList(t, front, s.list);
      CleanLog(t, front, s.list);
      CleanMedia(t, front, s.list);
      KeptPrefix(s.ops, t.ops, s.list);
      var r := Create(s, m, true);
      forall id | 0 <= id < |t.ops| ensures r.ops[id].(open := t.ops[id].open) == t.ops[id] && r.answer == s.answer
        ensures r.ops[id] == if id in Dropped(s.ops, s.list) then t.ops[id].(open := false) else t.ops[id]
      {
        CleanOps(t, front, s.list, id);
      }
      InvitesAgree(t.ops, r.ops, r.list);
      assert |s.ops| !in Dropped(s.ops, s.list);
      assert t.ops[|s.ops|] == Op(m, 0, Persistent(m), true);
    }
  }

  lemma PrependCleanable(s: State, m: SipMethod)
    requires Tidy(s) && Distinct(s.list) && forall id :: id in s.list ==> s.ops[id].open
    ensures Cleanable(Prepend(s, m), [|s.ops|], s.list)
  {
    var t := Prepend(s, m);
    forall i, j | 0 <= i < j < |t.list| ensures t.list[i] != t.list[j] {
      assert t.list[j] == s.list[j - 1] && s.list[j - 1] in s.list;
      if i > 0 {
        assert t.list[i] == s.list[i - 1];
      }
    }
  }

  lemma {:induction false} KeptPrefix(s: seq<Op>, t: seq<Op>, ids: seq<nat>)
    requires s <= t && forall id :: id in ids ==> id < |s|
    ensures Kept(s, ids) == Kept(t, ids) && Dropped(s, ids) == Dropped(t, ids)
  {
    if ids != [] {
      assert ids[0] in ids && forall id :: id in ids[1..] ==> id in ids;
      KeptPrefix(s, t, ids[1..]);
    }
  }
}
