/**
 * Option variables and the change list that undoes a failed parse
 * (Lab/sofsip-cli-0.16/src/replace_goption.c:682-905 and 1136-1182).
 */
module OptionStore {
  import opened OptionModel

  /** `prev` is the value revert writes back; `items` is allocated.array. */
  datatype Change = Change(target: Var, prev: Value, items: seq<string>)

  /** `changes` is newest first. */
  datatype Store = Store(vars: map<Var, Value>, changes: seq<Change>)

  /** Storage nobody has written yet reads as NULL. */
  function Lookup(vars: map<Var, Value>, x: Var): Value {
    if x in vars then vars[x] else NullVal
  }

  /** Position of the change for `x`, or |changes|. */
  function Find(changes: seq<Change>, x: Var): (k: nat)
    ensures k <= |changes|
    ensures k < |changes| ==> changes[k].target == x
    ensures forall j :: 0 <= j < k ==> changes[j].target != x
  {
    if changes == [] || changes[0].target == x then 0 else 1 + Find(changes[1..], x)
  }

  /** g_new0: every field of a new change is zero, and a zero flag is FALSE. */
  function Fresh(x: Var): Change {
    Change(x, if x.kind.FlagKind? then FlagVal(false) else NullVal, [])
  }

  /** get_change: the change list with an entry for `x` in it. */
  function Ensured(changes: seq<Change>, x: Var): (r: seq<Change>)
    ensures Find(r, x) < |r|
  {
    if Find(changes, x) < |changes| then changes else [Fresh(x)] + changes
  }

  /** What a write makes of the change kept for its target. */
  function Logged(c: Change, before: Value, ev: Event): Change {
    match ev
    case SetFlag(_, _) => c
    case SetScalar(_, _) => c.(prev := before)
    case Append(_, item) => c.(prev := if c.items == [] then before else c.prev, items := c.items + [item])
  }

  function Written(c: Change, ev: Event): Value {
    match ev
    case SetFlag(_, b) => FlagVal(b)
    case SetScalar(_, v) => v
    case Append(_, item) => ListVal(c.items + [item])
  }

  /** One successful parse_arg. */
  function Apply(s: Store, ev: Event): Store {
    var x := ev.Target();
    var changes := Ensured(s.changes, x);
    var k := Find(changes, x);
    Store(s.vars[x := Written(changes[k], ev)],
          changes[k := Logged(changes[k], Lookup(s.vars, x), ev)])
  }

  function Replay(s: Store, events: seq<Event>): Store {
    if events == [] then s else Apply(Replay(s, events[..|events| - 1]), events[|events| - 1])
  }

  /** free_changes_list (context, TRUE), walking the list from its newest entry. */
  function Revert(vars: map<Var, Value>, changes: seq<Change>): map<Var, Value>
    decreases |changes|
  {
    if changes == [] then vars else Revert(vars[changes[0].target := changes[0].prev], changes[1..])
  }

  lemma {:induction false} ReplayAppend(s: Store, a: seq<Event>, b: seq<Event>)
    ensures Replay(s, a + b) == Replay(Replay(s, a), b)
  {
    if b == [] {
      assert a + b == a;
    } else {
      var l := |b| - 1;
      assert (a + b)[..|a + b| - 1] == a + b[..l];
      ReplayAppend(s, a, b[..l]);
    }
  }

  // ----- what a rollback restores

  /** The writes made to one variable. */
  function On(events: seq<Event>, x: Var): (r: seq<Event>)
    ensures forall ev :: ev in r ==> ev.Target() == x
  {
    if events == [] then []
    else
      var l := |events| - 1;
      On(events[..l], x) + if events[l].Target() == x then [events[l]] else []
  }

  function ItemsOf(events: seq<Event>): seq<string> {
    if events == [] then []
    else
      var l := |events| - 1;
      ItemsOf(events[..l]) + if events[l].Append? then [events[l].item] else []
  }

  /**
   * The value a failed parse leaves in a variable that held `before` and was written by `events`:
   * a flag becomes FALSE, a list regains its value, a scalar regains what it held just before
   * its last write.
   */
  function Restored(before: Value, events: seq<Event>): Value {
    if events == [] then before
    else
      var l := |events| - 1;
      match events[l]
      case SetFlag(_, _) => FlagVal(false)
      case Append(_, _) => before
      case SetScalar(_, _) => if l > 0 && events[l - 1].SetScalar? then events[l - 1].v else before
  }

  function Current(before: Value, events: seq<Event>): Value {
    if events == [] then before
    else
      var l := |events| - 1;
      match events[l]
      case SetFlag(_, b) => FlagVal(b)
      case SetScalar(_, v) => v
      case Append(_, _) => ListVal(ItemsOf(events))
  }

  predicate OneEach(changes: seq<Change>) {
    forall i, j :: 0 <= i < j < |changes| ==> changes[i].target != changes[j].target
  }

  /** What the store knows about `x` after `events` were applied to `before`. */
  predicate Tracks(s: Store, before: Value, events: seq<Event>, x: Var) {
    var k := Find(s.changes, x);
    && Lookup(s.vars, x) == Current(before, events)
    && (k < |s.changes| <==> events != [])
    && (k < |s.changes| ==> s.changes[k].prev == Restored(before, events) && s.changes[k].items == ItemsOf(events))
  }

  /** Where a change is depends on the targets alone. */
  lemma TargetsDecide(a: seq<Change>, b: seq<Change>, x: Var)
    requires |a| == |b| && forall i :: 0 <= i < |a| ==> a[i].target == b[i].target
    ensures Find(a, x) == Find(b, x) && (OneEach(b) ==> OneEach(a))
  {
    var k, l := Find(a, x), Find(b, x);
    assert k < |a| ==> a[k].target == b[k].target;
    assert l < |a| ==> a[l].target == b[l].target;
  }

  lemma EnsuredOne(changes: seq<Change>, x: Var)
    requires OneEach(changes)
    ensures OneEach(Ensured(changes, x)) && 0 <= |Ensured(changes, x)| - |changes| <= 1
    ensures Find(Ensured(changes, x), x) == if |Ensured(changes, x)| > |changes| then 0 else Find(changes, x)
  {
  }

  lemma EnsuredOther(changes: seq<Change>, x: Var, y: Var)
    requires x != y
    ensures Find(Ensured(changes, x), y) == Find(changes, y) + |Ensured(changes, x)| - |changes|
  {
    if Find(changes, x) == |changes| {
      assert ([Fresh(x)] + changes)[1..] == changes;
    }
  }

  lemma ApplyChanges(s: Store, ev: Event)
    requires OneEach(s.changes)
    ensures var x, n := ev.Target(), |Apply(s, ev).changes| - |s.changes|;
            && OneEach(Apply(s, ev).changes) && 0 <= n <= 1
            && Find(Apply(s, ev).changes, x) == (if n == 1 then 0 else Find(s.changes, x))
  {
    var x := ev.Target();
    EnsuredOne(s.changes, x);
    TargetsDecide(Apply(s, ev).changes, Ensured(s.changes, x), x);
  }

  lemma ApplyOther(s: Store, ev: Event, y: Var)
    requires y != ev.Target()
    ensures var n := |Apply(s, ev).changes| - |s.changes|;
            n >= 0 && Find(Apply(s, ev).changes, y) == Find(s.changes, y) + n
  {
    var x := ev.Target();
    EnsuredOther(s.changes, x, y);
    TargetsDecide(Apply(s, ev).changes, Ensured(s.changes, x), y);
  }

  /** A write to another variable leaves the change of `y` as it is, wherever it moves. */
  lemma ApplyKeepsOther(s: Store, ev: Event, y: Var)
    requires y != ev.Target() && Find(s.changes, y) < |s.changes|
    ensures Find(Apply(s, ev).changes, y) < |Apply(s, ev).changes|
    ensures Apply(s, ev).changes[Find(Apply(s, ev).changes, y)] == s.changes[Find(s.changes, y)]
  {
    ApplyOther(s, ev, y);
  }

  lemma ApplyAtTarget(s: Store, ev: Event)
    requires OneEach(s.changes)
    ensures var x, s' := ev.Target(), Apply(s, ev);
            var k := Find(s.changes, x);
            var c := if k < |s.changes| then s.changes[k] else Fresh(x);
            && Lookup(s'.vars, x) == Written(c, ev)
            && Find(s'.changes, x) < |s'.changes|
            && s'.changes[Find(s'.changes, x)] == Logged(c, Lookup(s.vars, x), ev)
  {
    ApplyChanges(s, ev);
    var x := ev.Target();
    if Find(s.changes, x) == |s.changes| {
      assert Ensured(s.changes, x)[0] == Fresh(x);
    }
  }

  lemma ApplyTracksTarget(s: Store, before: Value, events: seq<Event>, ev: Event)
    requires OneEach(s.changes) && Tracks(s, before, events, ev.Target())
    requires forall e :: e in events ==> e.Target() == ev.Target()
    ensures Tracks(Apply(s, ev), before, events + [ev], ev.Target())
  {
    ApplyAtTarget(s, ev);
    var x := ev.Target();
    var k := Find(s.changes, x);
    LoggedIs(before, events, ev, if k < |s.changes| then s.changes[k] else Fresh(x));
  }

  /** What one more write makes of the change kept for `events`. */
  lemma LoggedIs(before: Value, events: seq<Event>, ev: Event, c: Change)
    requires forall e :: e in events ==> e.Target() == ev.Target()
    requires if events == [] then c == Fresh(ev.Target())
             else c.prev == Restored(before, events) && c.items == ItemsOf(events)
    ensures Written(c, ev) == Current(before, events + [ev])
    ensures Logged(c, Current(before, events), ev).prev == Restored(before, events + [ev])
    ensures Logged(c, Current(before, events), ev).items == ItemsOf(events + [ev])
  {
    ItemsGrow(events, ev);
    var all := events + [ev];
    assert all[|all| - 1] == ev;
    if events != [] {
      var last := events[|events| - 1];
      assert last in events && all[|all| - 2] == last;
      ListGrows(events);
    }
  }

  lemma ItemsGrow(events: seq<Event>, ev: Event)
    ensures ItemsOf(events + [ev]) == ItemsOf(events) + if ev.Append? then [ev.item] else []
  {
    assert (events + [ev])[..|events|] == events;
  }

  /** A list's log entry is empty only before its first write. */
  lemma ListGrows(events: seq<Event>)
    requires events != []
    ensures events[|events| - 1].Append? ==> ItemsOf(events) != []
  {
  }

  lemma ApplyTracksOther(s: Store, before: Value, events: seq<Event>, ev: Event, x: Var)
    requires OneEach(s.changes) && Tracks(s, before, events, x) && ev.Target() != x
    ensures Tracks(Apply(s, ev), before, events, x)
  {
    ApplyOther(s, ev, x);
    if Find(s.changes, x) < |s.changes| {
      ApplyKeepsOther(s, ev, x);
    }
  }

  lemma {:induction false} ReplayTracks(vars: map<Var, Value>, events: seq<Event>, x: Var)
    ensures OneEach(Replay(Store(vars, []), events).changes)
    ensures Tracks(Replay(Store(vars, []), events), Lookup(vars, x), On(events, x), x)
  {
    if events != [] {
      var l := |events| - 1;
      ReplayTracks(vars, events[..l], x);
      var s := Replay(Store(vars, []), events[..l]);
      ApplyChanges(s, events[l]);
      if events[l].Target() == x {
        ApplyTracksTarget(s, Lookup(vars, x), On(events[..l], x), events[l]);
      } else {
        ApplyTracksOther(s, Lookup(vars, x), On(events[..l], x), events[l], x);
        assert On(events, x) == On(events[..l], x);
      }
    }
  }

  lemma {:induction false} RevertLooksUp(vars: map<Var, Value>, changes: seq<Change>, x: Var)
    requires OneEach(changes)
    ensures var k := Find(changes, x);
            Lookup(Revert(vars, changes), x) == if k < |changes| then changes[k].prev else Lookup(vars, x)
    decreases |changes|
  {
    if changes != [] {
      RevertLooksUp(vars[changes[0].target := changes[0].prev], changes[1..], x);
      if changes[0].target == x {
        assert Find(changes[1..], x) == |changes[1..]|;
      }
    }
  }

  /** Rolling back any sequence of writes made from a fresh context. */
  lemma RollbackRestores(vars: map<Var, Value>, events: seq<Event>, x: Var)
    ensures var s := Replay(Store(vars, []), events);
            Lookup(Revert(s.vars, s.changes), x) == Restored(Lookup(vars, x), On(events, x))
  {
    var s := Replay(Store(vars, []), events);
    ReplayTracks(vars, events, x);
    RevertLooksUp(s.vars, s.changes, x);
  }

  /**
   * Exactly when a failed parse gives a variable its entry value back: an untouched variable and a
   * list always, a flag only if it was FALSE, a scalar only if it was written once or if the write
   * before the last one happened to store that same value.
   */
  lemma RollbackIsExactWhen(vars: map<Var, Value>, events: seq<Event>, x: Var)
    ensures var s := Replay(Store(vars, []), events);
            var before, on := Lookup(vars, x), On(events, x);
            Lookup(Revert(s.vars, s.changes), x) == before
            <==> match x.kind
                 case FlagKind => on == [] || before == FlagVal(false)
                 case ScalarKind => |on| <= 1 || on[|on| - 2] == SetScalar(x.id, before)
                 case ListKind => true
  {
    RollbackRestores(vars, events, x);
    var on := On(events, x);
    assert forall ev :: ev in on ==> ev.Target() == x;
    if on != [] {
      assert on[|on| - 1] in on;
      if |on| > 1 {
        assert on[|on| - 2] in on;
      }
    }
  }
}
