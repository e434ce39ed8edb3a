/**
 * The parser itself: a class whose methods follow the functions of
 * Lab/sofsip-cli-0.16/src/replace_goption.c, proved against OptionModel and OptionStore.
 */
module OptionContext {
  import opened Common
  import opened OptionModel
  import opened OptionStore
  import opened OptionLaws

  /** One element of argv. */
  datatype Slot = Null | Str(s: string)

  /** PendingNull: slot to be nulled or, if `value` is given, to be overwritten with "-" + value. */
  datatype Pending = Pending(slot: nat, value: Option<string>)

  predicate Marks(pending: seq<Pending>, slot: nat) {
    Pending(slot, None) in pending
  }

  predicate Rewrites(pending: seq<Pending>, slot: nat) {
    exists x :: x in pending && x.slot == slot && x.value.Some?
  }

  /** Newest first, nothing newer than an overwrite concerns the same slot. */
  predicate OverwriteFirst(pending: seq<Pending>) {
    forall a, b :: 0 <= a < b < |pending| && pending[b].value.Some? ==> pending[a].slot != pending[b].slot
  }

  /** The pending list as the scan keeps it on reaching argument i. */
  predicate InOrder(pending: seq<Pending>, args: seq<string>, i: nat) {
    && OverwriteFirst(pending)
    && forall x :: x in pending ==>
         && 0 < x.slot <= i && x.slot < |args|
         && (x.value.Some? ==> x.slot < i && 1 + |x.value.value| <= |args[x.slot]|)
  }

  /** `after` is `before` with marks for exactly the slots lo..hi (inclusive) put in front. */
  predicate MarkedRange(before: seq<Pending>, after: seq<Pending>, lo: nat, hi: nat) {
    && |before| <= |after| && after[|after| - |before|..] == before
    && (forall m :: 0 <= m < |after| - |before| ==> after[m].value.None? && lo <= after[m].slot <= hi)
    && forall k :: lo <= k <= hi ==> Marks(after, k)
  }

  /** What an untouched argument becomes once the whole list has been worked off. */
  function Fate(pending: seq<Pending>, slot: nat, s: Slot): Slot {
    if Marks(pending, slot) then Null else Overwritten(pending, slot, s)
  }

  function Overwritten(pending: seq<Pending>, slot: nat, s: Slot): Slot {
    if pending == [] then s
    else if pending[0].slot == slot && pending[0].value.Some? then Str("-" + pending[0].value.value)
    else Overwritten(pending[1..], slot, s)
  }

  /** The arguments left in argv[lo..hi]. */
  function Kept(args: seq<string>, pending: seq<Pending>, lo: nat, hi: nat): seq<string>
    requires lo <= hi <= |args|
    decreases hi
  {
    if lo == hi then [] else Kept(args, pending, lo, hi - 1) + Left(Fate(pending, hi - 1, Str(args[hi - 1])))
  }

  function Left(s: Slot): seq<string> {
    if s.Null? then [] else [s.s]
  }

  predicate Holds(slots: seq<Slot>, args: seq<string>) {
    |args| <= |slots| && forall k :: 0 <= k < |args| ==> slots[k] == Str(args[k])
  }

  class OptionContext {
    const cfg: Config
    var vars: map<Var, Value>
    var changes: seq<Change>
    var pending: seq<Pending>

    constructor (cfg: Config, vars: map<Var, Value>)
      ensures this.cfg == cfg && this.vars == vars && changes == [] && pending == []
    {
      this.cfg, this.vars, changes, pending := cfg, vars, [], [];
    }

    ghost function Now(): Store
      reads this
    {
      Store(vars, changes)
    }

    method GetChange(x: Var) returns (k: nat)
      modifies this`changes
      ensures changes == Ensured(old(changes), x) && k == Find(changes, x) && k < |changes|
    {
      k := 0;
      while k < |changes| && changes[k].target != x
        invariant k <= |changes| && changes == old(changes)
        invariant Find(changes, x) == k + Find(changes[k..], x)
      {
        assert changes[k..][1..] == changes[k + 1..];
        k := k + 1;
      }
      if k == |changes| {
        changes := [Fresh(x)] + changes;
        k := 0;
      }
    }

    method ParseArg(e: Entry, value: Option<string>) returns (status: Status)
      requires e.arg.ArgFlag? || value.Some?
      modifies this`vars, this`changes
      ensures match ArgEvent(cfg, e, value)
              case Write(ev) => status == Done && Now() == Apply(old(Now()), ev)
              case Reject(why) => status == why && !why.Done? && Now() == old(Now())
    {
      status := Done;
      match e.arg {
        case ArgFlag(reverse) =>
          var x := Var(FlagKind, e.data);
          var k := GetChange(x);
          assert changes == changes[k := changes[k]];
          vars := vars[x := FlagVal(!reverse)];
        case ArgInt =>
          var n := cfg.readInt(value.value);
          if n.None? {
            return BadValue;
          }
          SetScalarVar(e.data, IntVal(n.value));
        case ArgString =>
          var s := cfg.convert(value.value);
          if s.None? {
            return ConversionError;
          }
          SetScalarVar(e.data, TextVal(s.value));
        case ArgFilename =>
          SetScalarVar(e.data, TextVal(value.value));
        case ArgStringArray =>
          var s := cfg.convert(value.value);
          if s.None? {
            return ConversionError;
          }
          AppendVar(e.data, s.value);
        case ArgFilenameArray =>
          AppendVar(e.data, value.value);
      }
    }

    method SetScalarVar(id: nat, v: Value)
      modifies this`vars, this`changes
      ensures Now() == Apply(old(Now()), SetScalar(id, v))
    {
      var x := Var(ScalarKind, id);
      var k := GetChange(x);
      changes := changes[k := changes[k].(prev := Lookup(vars, x))];
      vars := vars[x := v];
    }

    method AppendVar(id: nat, item: string)
      modifies this`vars, this`changes
      ensures Now() == Apply(old(Now()), Append(id, item))
    {
      var x := Var(ListKind, id);
      var k := GetChange(x);
      if changes[k].items == [] {
        changes := changes[k := changes[k].(prev := Lookup(vars, x))];
      }
      changes := changes[k := changes[k].(items := changes[k].items + [item])];
      vars := vars[x := ListVal(changes[k].items)];
    }

    method AddPendingNull(slot: nat, value: Option<string>)
      modifies this`pending
      ensures pending == [Pending(slot, value)] + old(pending)
    {
      pending := [Pending(slot, value)] + pending;
    }

    /** The loop body of parse_short_option; newIndex > index means the next argument is used. */
    method ParseShortEntry(e: Entry, index: nat, newIndex: nat, letter: char, args: seq<string>, ghost took: bool,
                           ghost t: Taken)
      returns (status: Status, newIndex': nat, matched: bool, ghost t': Taken)
      requires index < |args| && t.status.Done? && t.used <= 1 && (t.used == 1 ==> !took)
      requires newIndex == index + (if took then 1 else t.used) && (newIndex > index ==> index + 1 < |args|)
      modifies this
      ensures IsShortEntry(cfg, e, letter, args[index + 1..], took, t, t')
      ensures status == t'.status && t.used <= t'.used <= 1 && (t'.used == 1 ==> !took && index + 1 < |args|)
      ensures if t'.events == t.events then Now() == old(Now())
              else OneMore(t.events, t'.events) && Now() == Apply(old(Now()), t'.events[|t.events|])
      ensures status.Done? ==>
                && newIndex' == newIndex + (t'.used - t.used)
                && (t'.parsed <==> t.parsed || matched)
                && pending == (if t'.used > t.used then [Pending(index + 1, None)] else []) + old(pending)
    {
      t' := ShortEntry(cfg, e, letter, args[index + 1..], took, t);
      status, newIndex', matched := Done, newIndex, false;
      if e.short == Some(letter) {
        var value := None;
        if !e.arg.ArgFlag? {
          if newIndex > index {
            status := Failed;
            return;
          }
          if index + 1 == |args| {
            status := BadValue;
            return;
          }
          value := Some(args[index + 1]);
          AddPendingNull(index + 1, None);
          newIndex' := index + 1;
        }
        matched := true;
        status := ParseArg(e, value);
      }
    }

    /** parse_short_option for one group. */
    method ParseShort(entries: seq<Entry>, index: nat, newIndex: nat, letter: char, args: seq<string>)
      returns (status: Status, newIndex': nat, parsed: bool)
      requires index < |args| && index <= newIndex <= index + 1 && (newIndex > index ==> index + 1 < |args|)
      modifies this
      ensures var t := ShortEntries(cfg, entries, letter, args[index + 1..], newIndex > index, NotTaken);
              && status == t.status && Now() == Replay(old(Now()), t.events)
              && (status.Done? ==>
                    && parsed == t.parsed && newIndex' == newIndex + t.used
                    && pending == (if t.used == 1 then [Pending(index + 1, None)] else []) + old(pending))
    {
      status, newIndex', parsed := Done, newIndex, false;
      ghost var rest, took, t := args[index + 1..], newIndex > index, NotTaken;
      ShortStart(cfg, entries, letter, rest, took);
      var j := 0;
      while j < |entries|
        invariant j <= |entries| && newIndex' == newIndex + t.used && status.Done?
        invariant t.status.Done? && parsed == t.parsed && ShortTo(cfg, entries, letter, rest, took, j, t)
        invariant Now() == Replay(old(Now()), t.events)
        invariant pending == (if t.used == 1 then [Pending(index + 1, None)] else []) + old(pending)
      {
        ghost var t';
        var matched;
        status, newIndex', matched, t' := ParseShortEntry(entries[j], index, newIndex', letter, args, took, t);
        ReplayMore(old(Now()), t.events, t'.events);
        ShortStep(cfg, entries, letter, rest, took, j, t, t');
        t := t';
        if !status.Done? {
          return;
        }
        parsed := parsed || matched;
        j := j + 1;
      }
      ShortEnd(cfg, entries, letter, rest, took, t);
    }

    /** The loop body of parse_long_option for an entry that is not skipped as NOALIAS. */
    method ParseLongEntry(e: Entry, index: nat, arg: string, args: seq<string>, ghost first: nat, ghost t: Taken)
      returns (status: Status, index': nat, matched: bool, ghost t': Taken)
      requires first <= index < |args| && t.status.Done? && index == first + t.used
      modifies this
      ensures IsLongEntry(cfg, e, arg, args[first + 1..], t, t')
      ensures status == t'.status
      ensures if t'.events == t.events then Now() == old(Now())
              else OneMore(t.events, t'.events) && Now() == Apply(old(Now()), t'.events[|t.events|])
      ensures status.Done? ==>
                && index <= index' == first + t'.used < |args|
                && (matched ==> t'.parsed && MarkedRange(old(pending), pending, index, index'))
                && (!matched ==> t' == t && pending == old(pending))
    {
      t' := LongEntry(cfg, e, arg, false, args[first + 1..], t);
      status, index', matched := Done, index, false;
      if e.arg.ArgFlag? && arg == e.long {
        AddPendingNull(index, None);
        MarkedRangeOf(old(pending), index, index);
        status := ParseArg(e, None);
        matched := true;
      } else if e.long <= arg && (|arg| == |e.long| || arg[|e.long|] == '=') {
        var value, missing;
        value, index', missing := TakeLongValue(e, index, arg, args);
        if missing {
          status := BadValue;
        } else {
          assert |arg| == |e.long| ==> args[index + 1] == args[first + 1..][t.used];
          status := ParseArg(e, Some(value));
          matched := true;
        }
      }
    }

    /** The value behind `=` or in the next argument; what is used is marked. */
    method TakeLongValue(e: Entry, index: nat, arg: string, args: seq<string>)
      returns (value: string, index': nat, missing: bool)
      requires index < |args| && LongMatches(e, arg)
      modifies this`pending
      ensures missing <==> |arg| == |e.long| && index == |args| - 1
      ensures !missing ==>
                && index' == (if |arg| > |e.long| then index else index + 1)
                && value == (if |arg| > |e.long| then arg[|e.long| + 1..] else args[index + 1])
                && MarkedRange(old(pending), pending, index, index')
    {
      value, index', missing := "", index, false;
      AddPendingNull(index, None);
      if |arg| > |e.long| {
        value := arg[|e.long| + 1..];
      } else if index < |args| - 1 {
        value := args[index + 1];
        AddPendingNull(index + 1, None);
        index' := index + 1;
      } else {
        missing := true;
      }
      MarkedRangeOf(old(pending), index, index');
    }

    /** parse_long_option for one group; `index` moves with every value taken. */
    method ParseLong(entries: seq<Entry>, index: nat, arg: string, aliased: bool, args: seq<string>)
      returns (status: Status, index': nat, parsed: bool)
      requires index < |args|
      modifies this
      ensures var t := LongEntries(cfg, entries, arg, aliased, args[index + 1..], NotTaken);
              && status == t.status && Now() == Replay(old(Now()), t.events)
              && (status.Done? ==>
                    && parsed == t.parsed && index' == index + t.used
                    && (parsed ==> MarkedRange(old(pending), pending, index, index'))
                    && (!parsed ==> t == NotTaken && pending == old(pending)))
    {
      status, index', parsed := Done, index, false;
      ghost var rest, t := args[index + 1..], NotTaken;
      LongStart(cfg, entries, arg, aliased, rest);
      var j := 0;
      while j < |entries|
        invariant j <= |entries| && index' == index + t.used && status.Done?
        invariant t.status.Done? && t.used <= |rest| && parsed == t.parsed
        invariant LongTo(cfg, entries, arg, aliased, rest, j, t)
        invariant Now() == Replay(old(Now()), t.events)
        invariant if parsed then MarkedRange(old(pending), pending, index, index')
                  else t == NotTaken && pending == old(pending)
      {
        if aliased && entries[j].noAlias {
          LongSkips(cfg, entries, arg, aliased, rest, j, t);
        } else {
          ghost var t';
          status, index', parsed, t' := TryLong(entries[j], index', arg, args, parsed, index, t, old(pending),
                                                old(Now()));
          LongStep(cfg, entries, arg, aliased, rest, j, t, t');
          t := t';
          if !status.Done? {
            return;
          }
        }
        j := j + 1;
      }
      LongEnd(cfg, entries, arg, aliased, rest, t);
    }

    /** ParseLongEntry, seen from the whole loop: it started at argument `first` with `start` pending. */
    method TryLong(e: Entry, index: nat, arg: string, args: seq<string>, parsed: bool,
                   ghost first: nat, ghost t: Taken, ghost start: seq<Pending>, ghost base: Store)
      returns (status: Status, index': nat, parsed': bool, ghost t': Taken)
      requires first <= index < |args| && t.status.Done? && index == first + t.used && parsed == t.parsed
      requires if parsed then MarkedRange(start, pending, first, index) else t == NotTaken && pending == start
      requires Now() == Replay(base, t.events)
      modifies this
      ensures IsLongEntry(cfg, e, arg, args[first + 1..], t, t')
      ensures status == t'.status && Now() == Replay(base, t'.events)
      ensures status.Done? ==>
                && index' == first + t'.used < |args| && parsed' == t'.parsed
                && if parsed' then MarkedRange(start, pending, first, index') else t' == NotTaken && pending == start
    {
      ghost var was := pending;
      var matched;
      status, index', matched, t' := ParseLongEntry(e, index, arg, args, first, t);
      ReplayMore(base, t.events, t'.events);
      parsed' := parsed || matched;
      if status.Done? && matched {
        MarkedRangeJoins(start, was, pending, first, index, index', parsed);
      }
    }

    method ParseRemaining(entries: seq<Entry>, index: nat, args: seq<string>)
      returns (status: Status, parsed: bool)
      requires index < |args|
      modifies this
      ensures var t := CollectEntries(cfg, entries, args[index]);
              && status == t.status && Now() == Replay(old(Now()), t.events)
              && (status.Done? ==>
                    && parsed == t.parsed
                    && pending == (if parsed then [Pending(index, None)] else []) + old(pending))
    {
      var j := 0;
      while j < |entries|
        invariant j <= |entries| && Now() == old(Now()) && pending == old(pending)
        invariant CollectEntries(cfg, entries, args[index]) == CollectEntries(cfg, entries[j..], args[index])
      {
        var e := entries[j];
        assert entries[j..][1..] == entries[j + 1..];
        if e.long == [] {
          if !e.arg.ArgStringArray? && !e.arg.ArgFilenameArray? {
            return NoErrorSet, false;
          }
          AddPendingNull(index, None);
          status := ParseArg(e, Some(args[index]));
          parsed := status.Done?;
          ReplayOne(old(Now()), ArgEvent(cfg, e, Some(args[index])));
          return;
        }
        j := j + 1;
      }
      return Done, false;
    }

    /** --arg: the main group, then the other groups, then --<group>-<option>. */
    method ParseLongOption(index: nat, arg: string, args: seq<string>)
      returns (status: Status, index': nat, parsed: bool)
      requires index < |args|
      modifies this
      ensures var t := Long(cfg, arg, args[index + 1..]);
              && status == t.status && Now() == Replay(old(Now()), t.events)
              && (status.Done? ==>
                    && parsed == t.parsed && index' == index + t.used
                    && (parsed ==> MarkedRange(old(pending), pending, index, index'))
                    && (!parsed ==> t == NotTaken && pending == old(pending)))
    {
      ghost var rest := args[index + 1..];
      status, index', parsed := ParseLong(if cfg.main.None? then [] else cfg.main.value.entries, index, arg, false,
                                          args);
      if !status.Done? || parsed {
        return;
      }
      var g := 0;
      while g < |cfg.groups|
        invariant g <= |cfg.groups| && Now() == old(Now()) && pending == old(pending)
        invariant status.Done? && !parsed && index' == index
        invariant LongGroups(cfg, cfg.groups, arg, rest) == LongGroups(cfg, cfg.groups[g..], arg, rest)
      {
        assert cfg.groups[g..][1..] == cfg.groups[g + 1..];
        status, index', parsed := ParseLong(cfg.groups[g].entries, index, arg, false, args);
        if !status.Done? || parsed {
          return;
        }
        g := g + 1;
      }
      if FirstDash(arg) < |arg| {
        status, index', parsed := ParseAlias(index, arg, FirstDash(arg), args);
      }
    }

    /** --<group>-<option>, for every group whose name starts with what stands before the dash. */
    method ParseAlias(index: nat, arg: string, dash: nat, args: seq<string>)
      returns (status: Status, index': nat, parsed: bool)
      requires index < |args| && dash < |arg|
      modifies this
      ensures var t := AliasGroups(cfg, cfg.groups, arg, dash, args[index + 1..]);
              && status == t.status && Now() == Replay(old(Now()), t.events)
              && (status.Done? ==>
                    && parsed == t.parsed && index' == index + t.used
                    && (parsed ==> MarkedRange(old(pending), pending, index, index'))
                    && (!parsed ==> t == NotTaken && pending == old(pending)))
    {
      status, index', parsed := Done, index, false;
      ghost var rest := args[index + 1..];
      var g := 0;
      while g < |cfg.groups|
        invariant g <= |cfg.groups| && Now() == old(Now()) && pending == old(pending)
        invariant status.Done? && !parsed && index' == index
        invariant AliasGroups(cfg, cfg.groups, arg, dash, rest) == AliasGroups(cfg, cfg.groups[g..], arg, dash, rest)
      {
        assert cfg.groups[g..][1..] == cfg.groups[g + 1..];
        if arg[..dash] <= cfg.groups[g].name {
          status, index', parsed := ParseLong(cfg.groups[g].entries, index, arg[dash + 1..], true, args);
          if !status.Done? || parsed {
            return;
          }
        }
        g := g + 1;
      }
    }

    /** One letter of a cluster: the main group, then the other groups. */
    method ParseLetter(index: nat, newIndex: nat, letter: char, args: seq<string>)
      returns (status: Status, newIndex': nat, parsed: bool)
      requires index < |args| && index <= newIndex <= index + 1
      requires newIndex > index ==> index + 1 < |args|
      modifies this
      ensures var t := Letter(cfg, letter, args[index + 1..], newIndex > index);
              && status == t.status && Now() == Replay(old(Now()), t.events)
              && (status.Done? ==>
                    && parsed == t.parsed && newIndex' == newIndex + t.used
                    && (!parsed ==> t.events == [] && t.used == 0)
                    && pending == (if t.used == 1 then [Pending(index + 1, None)] else []) + old(pending))
    {
      ghost var rest, took := args[index + 1..], newIndex > index;
      var main := if cfg.main.None? then [] else cfg.main.value.entries;
      ShortIdle(cfg, main, letter, rest, took, NotTaken);
      status, newIndex', parsed := ParseShort(main, index, newIndex, letter, args);
      if !status.Done? || parsed {
        return;
      }
      var g := 0;
      while g < |cfg.groups|
        invariant g <= |cfg.groups| && Now() == old(Now()) && pending == old(pending)
        invariant status.Done? && !parsed && newIndex' == newIndex
        invariant LetterGroups(cfg, cfg.groups, letter, rest, took)
                  == LetterGroups(cfg, cfg.groups[g..], letter, rest, took)
      {
        assert cfg.groups[g..][1..] == cfg.groups[g + 1..];
        ShortIdle(cfg, cfg.groups[g].entries, letter, rest, took, NotTaken);
        status, newIndex', parsed := ParseShort(cfg.groups[g].entries, index, newIndex, letter, args);
        if !status.Done? || parsed {
          return;
        }
        g := g + 1;
      }
    }

    /** The letters of a cluster, one by one; `nulledOut` tells which were parsed. */
    method ParseLetters(arg: string, index: nat, args: seq<string>)
      returns (status: Status, newIndex: nat, parsed: bool, nulledOut: seq<bool>)
      requires index < |args|
      modifies this
      ensures var c := Letters(cfg, arg, args[index + 1..], false, false);
              && status == c.status && Now() == Replay(old(Now()), c.events)
              && (status.Done? ==>
                    && parsed == c.parsed && newIndex == index + (if c.took then 1 else 0)
                    && |nulledOut| == |arg| && c.unknown == Survivors(arg, nulledOut)
                    && pending == (if c.took then [Pending(index + 1, None)] else []) + old(pending))
    {
      status, newIndex, parsed, nulledOut := Done, index, false, [];
      ghost var rest, events := args[index + 1..], [];
      LettersStart(cfg, arg, rest);
      var j := 0;
      while j < |arg|
        invariant j == |nulledOut| <= |arg| && status.Done?
        invariant index <= newIndex <= index + 1 && (newIndex > index ==> rest != [])
        invariant LettersTo(cfg, arg, rest, events, nulledOut, newIndex > index, parsed)
        invariant Now() == Replay(old(Now()), events)
        invariant pending == (if newIndex > index then [Pending(index + 1, None)] else []) + old(pending)
      {
        ghost var t := Letter(cfg, arg[j], rest, newIndex > index);
        ReplayAppend(old(Now()), events, t.events);
        LettersStep(cfg, arg, rest, events, nulledOut, newIndex > index, parsed);
        status, newIndex, parsed := ParseLetter(index, newIndex, arg[j], args);
        if !status.Done? {
          return;
        }
        if !parsed && !cfg.ignoreUnknown {
          status := UnknownOption;
          return;
        }
        nulledOut := nulledOut + [parsed];
        events := events + t.events;
        j := j + 1;
      }
      LettersEnd(cfg, arg, rest, events, nulledOut, newIndex > index, parsed);
    }

    /** A cluster; in ignore-unknown mode the letters that were not parsed are kept for later. */
    method ParseCluster(index: nat, args: seq<string>)
      returns (status: Status, newIndex: nat, parsed: bool)
      requires index < |args| && |args[index]| > 1
      modifies this
      ensures var c := Letters(cfg, args[index][1..], args[index + 1..], false, false);
              && status == c.status && Now() == Replay(old(Now()), c.events)
              && (status.Done? ==>
                    && parsed == c.parsed && newIndex == index + (if c.took then 1 else 0)
                    && pending == [Pending(index, if c.unknown == [] then None else Some(c.unknown))]
                                  + ((if c.took then [Pending(index + 1, None)] else []) + old(pending)))
    {
      var arg, nulledOut := args[index][1..], [];
      status, newIndex, parsed, nulledOut := ParseLetters(arg, index, args);
      if status.Done? {
        if cfg.ignoreUnknown {
          var newArg := Unparsed(arg, nulledOut);
          AddPendingNull(index, if newArg == [] then None else Some(newArg));
        } else {
          AddPendingNull(index, None);
        }
      }
    }

    /** The letters of a cluster that were not parsed, in order. */
    method Unparsed(letters: string, nulledOut: seq<bool>) returns (newArg: string)
      requires |nulledOut| == |letters|
      ensures newArg == Survivors(letters, nulledOut) && |newArg| <= |letters|
    {
      newArg := [];
      var j := 0;
      while j < |letters|
        invariant |newArg| <= j <= |letters| && newArg == Survivors(letters[..j], nulledOut[..j])
      {
        assert letters[..j + 1][..j] == letters[..j] && nulledOut[..j + 1][..j] == nulledOut[..j];
        if !nulledOut[j] {
          newArg := newArg + [letters[j]];
        }
        j := j + 1;
      }
      assert letters[..j] == letters && nulledOut[..j] == nulledOut;
    }

    /** One turn of the main loop, before any separator. */
    method ParseArgument(i: nat, unknown: bool, args: seq<string>)
      returns (status: Status, i': nat, unknown': bool, ghost t: Turn)
      requires 0 < i < |args| && args[i] != "--" && InOrder(pending, args, i)
      modifies this
      ensures IsNext(cfg, args, i, unknown, Marks(old(pending), i), t)
      ensures status == t.status && Now() == Replay(old(Now()), t.events)
      ensures status.Done? ==>
                i' == i + t.used && unknown' == t.unknown && Leaves(cfg, args, old(pending), pending, i, t)
    {
      var arg := args[i];
      i', unknown' := i, unknown;
      NextByKind(cfg, args, i, unknown, Marks(pending, i));
      if |arg| > 1 && arg[0] == '-' {
        if arg[1] == '-' {
          status, i', t := ParseLongArgument(i, unknown, args);
        } else {
          status, i', unknown', t := ParseClusterArgument(i, unknown, args);
        }
      } else {
        status, t := ParsePlainArgument(i, unknown, args);
      }
    }

    method ParseLongArgument(i: nat, ghost unknown: bool, args: seq<string>)
      returns (status: Status, i': nat, ghost t: Turn)
      requires 0 < i < |args| && |args[i]| > 1 && InOrder(pending, args, i)
      modifies this
      ensures t == LongTurn(cfg, Long(cfg, args[i][2..], args[i + 1..]), args[i], unknown, Marks(old(pending), i))
      ensures status == t.status && Now() == Replay(old(Now()), t.events) && t.unknown == unknown
      ensures status.Done? ==> i' == i + t.used && Leaves(cfg, args, old(pending), pending, i, t)
    {
      var parsed;
      t := LongTurn(cfg, Long(cfg, args[i][2..], args[i + 1..]), args[i], unknown, Marks(pending, i));
      status, i', parsed := ParseLongOption(i, args[i][2..], args);
      if status.Done? {
        if parsed {
          RangeLeaves(cfg, args, old(pending), pending, i, i', t);
        } else if !cfg.ignoreUnknown {
          status := UnknownOption;
        } else {
          NothingLeaves(cfg, args, pending, i, t);
        }
      }
    }

    method ParseClusterArgument(i: nat, unknown: bool, args: seq<string>)
      returns (status: Status, i': nat, unknown': bool, ghost t: Turn)
      requires 0 < i < |args| && |args[i]| > 1 && InOrder(pending, args, i)
      modifies this
      ensures t == ClusterTurn(cfg, Letters(cfg, args[i][1..], args[i + 1..], false, false), unknown,
                               Marks(old(pending), i))
      ensures status == t.status && Now() == Replay(old(Now()), t.events)
      ensures status.Done? ==>
                i' == i + t.used && unknown' == t.unknown && Leaves(cfg, args, old(pending), pending, i, t)
    {
      var newIndex, parsed;
      ghost var c := Letters(cfg, args[i][1..], args[i + 1..], false, false);
      t := ClusterTurn(cfg, c, unknown, Marks(pending, i));
      status, newIndex, parsed := ParseCluster(i, args);
      i', unknown' := i, unknown;
      if status.Done? {
        ClusterLeaves(cfg, args, old(pending), i, c, unknown);
        if cfg.ignoreUnknown {
          unknown' := unknown || !parsed;
        } else {
          i' := newIndex;
        }
      }
    }

    method ParsePlainArgument(i: nat, ghost unknown: bool, args: seq<string>)
      returns (status: Status, ghost t: Turn)
      requires 0 < i < |args| && InOrder(pending, args, i)
      modifies this
      ensures t == PlainTurn(Collect(cfg, args[i]), args[i], unknown, Marks(old(pending), i))
      ensures status == t.status && Now() == Replay(old(Now()), t.events)
      ensures status.Done? ==> Leaves(cfg, args, old(pending), pending, i, t)
    {
      var parsed;
      t := PlainTurn(Collect(cfg, args[i]), args[i], unknown, Marks(pending, i));
      status, parsed := ParseRemaining(if cfg.main.None? then [] else cfg.main.value.entries, i, args);
      if status.Done? {
        if parsed {
          MarkedRangeOf(old(pending), i, i);
          RangeLeaves(cfg, args, old(pending), pending, i, i, t);
        } else {
          assert pending == old(pending);
          NothingLeaves(cfg, args, pending, i, t);
        }
      }
    }

    /** ParseArgument, seen from the whole scan: `events` are the writes made before it. */
    method Advance(i: nat, unknown: bool, args: seq<string>, ghost events: seq<Event>)
      returns (status: Status, i': nat, unknown': bool, ghost more: seq<Event>)
      requires i < |args| && args[i] != "--" && Stands(cfg, args, i, unknown, pending, events)
      modifies this
      ensures Now() == Replay(old(Now()), more)
      ensures if status.Done? then i < i' && Stands(cfg, args, i', unknown', pending, events + more)
              else ScanFails(cfg, args, status, events + more)
    {
      ghost var t;
      assert InOrder(pending, args, i) by {
        StandsMeans(cfg, args, i, unknown, pending, events);
      }
      status, i', unknown', t := ParseArgument(i, unknown, args);
      more := t.events;
      i' := i' + 1;
      Advanced(cfg, args, i, unknown, old(pending), pending, events, t);
    }

    /** The main loop up to the separator, or to the end if there is none. */
    method ScanOptions(args: seq<string>)
      returns (status: Status, i: nat, unknown: bool, ghost events: seq<Event>)
      requires 0 < |args| && pending == []
      modifies this
      ensures Now() == Replay(old(Now()), events)
      ensures !status.Done? ==> ScanFails(cfg, args, status, events)
      ensures status.Done? ==>
                (i < |args| ==> args[i] == "--") && Stands(cfg, args, i, unknown, pending, events)
    {
      status, i, unknown, events := Done, 1, false, [];
      ScannedNothing(cfg, args);
      while i < |args| && args[i] != "--"
        invariant status.Done? && Stands(cfg, args, i, unknown, pending, events)
        invariant Now() == Replay(old(Now()), events)
        decreases |args| - i
      {
        ghost var more;
        status, i, unknown, more := Advance(i, unknown, args, events);
        ReplayAppend(old(Now()), events, more);
        events := events + more;
        if !status.Done? {
          return;
        }
      }
    }

    /** One turn after the separator at argument p; `blocked`: separator_pos has been reset. */
    method ParseRest(p: nat, i: nat, unknown: bool, args: seq<string>,
                     blocked: bool, ghost events: seq<Event>, ghost start: seq<Pending>)
      returns (status: Status, blocked': bool, ghost more: seq<Event>)
      requires 0 < p && i < |args| && RestStands(cfg, args, p, i, unknown, start, pending, events, blocked)
      modifies this
      ensures Now() == Replay(old(Now()), more)
      ensures if status.Done? then RestStands(cfg, args, p, i + 1, unknown, start, pending, events + more, blocked')
              else RestFails(cfg, args, p, unknown, status, events + more)
    {
      var parsed;
      assert OnDemand(i, 0);
      RestTurn(cfg, args, p, i, unknown, pending, blocked, events);
      RemainingMarked(pending, args, i, Collect(cfg, args[i]).parsed);
      status, parsed := ParseRemaining(if cfg.main.None? then [] else cfg.main.value.entries, i, args);
      more := Collect(cfg, args[i]).events;
      var arg := args[i];
      blocked' := blocked || (!parsed && (unknown || (arg != [] && arg[0] == '-')));
      if status.Done? {
        SameBelowJoins(args, start, old(pending), pending, p + 1, i);
      }
    }

    /** The main loop after the separator. */
    method ScanRest(p: nat, unknown: bool, args: seq<string>)
      returns (status: Status, blocked: bool, ghost events: seq<Event>)
      requires 0 < p < |args| && InOrder(pending, args, p)
      modifies this
      ensures Now() == Replay(old(Now()), events)
      ensures !status.Done? ==> RestFails(cfg, args, p, unknown, status, events)
      ensures status.Done? ==> RestStands(cfg, args, p, |args|, unknown, old(pending), pending, events, blocked)
    {
      status, blocked, events := Done, false, [];
      RestStart(cfg, args, p, unknown, pending);
      var i := p + 1;
      while i < |args|
        invariant status.Done? && RestStands(cfg, args, p, i, unknown, old(pending), pending, events, blocked)
        invariant Now() == Replay(old(Now()), events)
        decreases |args| - i
      {
        ghost var more := [];
        status, blocked, more := ParseRest(p, i, unknown, args, blocked, events, old(pending));
        ReplayAppend(old(Now()), events, more);
        events := events + more;
        if !status.Done? {
          return;
        }
        i := i + 1;
      }
    }

    /** The whole main loop, up to and including the decision about the separator. */
    method ScanAll(args: seq<string>)
      returns (status: Status, ghost events: seq<Event>)
      requires 0 < |args| && pending == []
      modifies this
      ensures Now() == Replay(old(Now()), events)
      ensures !status.Done? ==> ScanFails(cfg, args, status, events)
      ensures status.Done? ==>
                && InOrder(pending, args, |args|) && (!cfg.ignoreUnknown ==> OnlyNulls(pending))
                && ScanEnds(cfg, args, events, Kept(args, pending, 1, |args|))
    {
      var p, unknown;
      status, p, unknown, events := ScanOptions(args);
      if status.Done? {
        StandsMeans(cfg, args, p, unknown, pending, events);
        if p == |args| {
          ScannedAll(cfg, args, unknown, pending, events);
        } else {
          ghost var before, more, blocked := pending, [], false;
          ghost var first := events;
          var reset;
          status, reset, more := ScanRest(p, unknown, args);
          ReplayAppend(old(Now()), first, more);
          events := first + more;
          ghost var after := pending;
          if status.Done? && !reset {
            AddPendingNull(p, None);
          }
          SeparatorDone(cfg, args, p, unknown, before, after, reset, first, more, status);
        }
      }
    }

    /** Walks the change list from its newest entry, writing saved values back if asked to. */
    method FreeChanges(revert: bool)
      modifies this`vars, this`changes
      ensures changes == []
      ensures vars == if revert then Revert(old(vars), old(changes)) else old(vars)
    {
      var k := 0;
      while k < |changes|
        invariant k <= |changes| && changes == old(changes)
        invariant !revert ==> vars == old(vars)
        invariant revert ==> Revert(old(vars), changes) == Revert(vars, changes[k..])
      {
        assert changes[k..][1..] == changes[k + 1..];
        if revert {
          vars := vars[changes[k].target := changes[k].prev];
        }
        k := k + 1;
      }
      changes := [];
    }

    /**
     * Works the pending list off, newest first. An overwrite needs a string to write into (the
     * slot has not been nulled yet) and room for it.
     */
    method FreePendingNulls(argv: array<Slot>, perform: bool, ghost args: seq<string>)
      requires Holds(argv[..], args) && (perform ==> InOrder(pending, args, |args|))
      modifies argv, this`pending
      ensures pending == []
      ensures !perform ==> argv[..] == old(argv[..])
      ensures perform ==> forall k :: 0 <= k < |args| ==> argv[k] == Fate(old(pending), k, Str(args[k]))
      ensures forall k :: |args| <= k < argv.Length ==> argv[k] == old(argv[k])
    {
      var m := 0;
      while m < |pending|
        invariant m <= |pending| && pending == old(pending)
        invariant !perform ==> argv[..] == old(argv[..])
        invariant perform ==> forall k :: 0 <= k < |args| ==> argv[k] == Fate(pending[..m], k, Str(args[k]))
        invariant forall k :: |args| <= k < argv.Length ==> argv[k] == old(argv[k])
      {
        var x := pending[m];
        assert x in pending;
        if perform {
          forall k | 0 <= k < |args|
            ensures Fate(pending[..m + 1], k, Str(args[k]))
                    == if k != x.slot then Fate(pending[..m], k, Str(args[k]))
                       else if x.value.None? then Null
                       else Str("-" + x.value.value)
          {
            FateSnoc(pending, m, k, Str(args[k]));
          }
          if x.value.Some? {
            FateSnoc(pending, m, x.slot, Str(args[x.slot]));
            assert argv[x.slot].Str? && 1 + |x.value.value| <= |argv[x.slot].s|;
            argv[x.slot] := Str("-" + x.value.value);
          } else {
            argv[x.slot] := Null;
          }
        }
        m := m + 1;
      }
      assert pending[..m] == pending;
      pending := [];
    }

    /** The end of a successful parse: slots are nulled or overwritten, then the gaps are closed. */
    method StripArguments(argv: array<Slot>, argc: nat, ghost args: seq<string>) returns (argc': nat)
      requires Holds(argv[..], args) && argc == |args| && 0 < argc && InOrder(pending, args, argc)
      modifies this`pending, argv
      ensures pending == [] && argc' <= argc && argv[argc..] == old(argv[argc..])
      ensures argv[..argc'] == Strs([args[0]] + Kept(args, old(pending), 1, argc))
      ensures forall k :: argc' <= k < argc ==> argv[k].Null?
    {
      ghost var list, beyond := pending, argv[argc..];
      FreePendingNulls(argv, true, args);
      assert argv[argc..] == beyond;
      SettledSlots(args, list, argv[..]);
      assert argv[1..argc] == argv[..][1..argc];
      argc' := Compact(argv, argc);
    }

    /**
     * g_option_context_parse with help disabled and no hooks. On success argv holds argv[0] and the
     * arguments left over, closed up; on failure argv and argc are as they were and every variable
     * is restored as far as the change list allows. `marked` are the slots taken out of argv.
     */
    method Parse(argv: array<Slot>, argc: nat) returns (status: Status, argc': nat, ghost marked: set<nat>)
      requires argc <= argv.Length && (forall k :: 0 <= k < argc ==> argv[k].Str?) && pending == []
      modifies this, argv
      ensures var args := Strings(old(argv[..argc]));
              var r := OptionModel.Parse(cfg, args);
              && status == r.status && pending == [] && argc' <= argc && argv[argc..] == old(argv[argc..])
              && (status.Done? ==>
                    && Now() == Replay(old(Now()), r.events)
                    && argv[..argc'] == Strs(r.kept)
                    && (forall k :: argc' <= k < argc ==> argv[k].Null?)
                    && (!cfg.ignoreUnknown ==>
                          && r.kept == Unmarked(args, marked, 0, argc)
                          && 0 !in marked && (forall k :: k in marked ==> k < argc) && argc' == argc - |marked|))
              && (!status.Done? ==>
                    && argc' == argc && argv[..] == old(argv[..]) && changes == []
                    && (old(changes) == [] ==>
                          forall x :: Lookup(vars, x) == Restored(Lookup(old(vars), x), On(r.events, x))))
    {
      var args := seq(argc, k requires 0 <= k < argc && argv[k].Str? reads argv => argv[k].s);
      assert args == Strings(argv[..argc]);
      marked := {};
      if argc == 0 {
        NothingToParse(cfg, args);
        return Done, 0, {};
      }
      ghost var events;
      status, events := ScanAll(args);
      if !status.Done? {
        ParseFailed(cfg, args, status, events);
        Rollback(old(Now()), events);
        FreeChanges(true);
        FreePendingNulls(argv, false, args);
        return status, argc, {};
      }
      marked := set k | 0 <= k < argc && Marks(pending, k);
      ParseDone(cfg, args, events, pending, marked);
      argc' := StripArguments(argv, argc, args);
    }
  }

  /** The letters that were not parsed. */
  function Survivors(letters: string, nulledOut: seq<bool>): string
    requires |letters| == |nulledOut|
  {
    if letters == [] then []
    else
      var l := |letters| - 1;
      Survivors(letters[..l], nulledOut[..l]) + if nulledOut[l] then [] else [letters[l]]
  }

  function Joined(events: seq<Event>, unknown: string, c: Cluster): Cluster {
    c.(events := events + c.events, unknown := unknown + c.unknown)
  }

  predicate OneMore(before: seq<Event>, after: seq<Event>) {
    |after| == |before| + 1 && after == before + [after[|before|]]
  }

  /** `t'` is what one entry makes of a letter on top of `t`. */
  ghost predicate IsShortEntry(cfg: Config, e: Entry, letter: char, rest: seq<string>, took: bool, t: Taken,
                               t': Taken) {
    && t.used <= 1 && (t.used == 1 ==> !took && rest != [])
    && forall k :: OnDemand(0, k) ==> t' == ShortEntry(cfg, e, letter, rest, took, t)
  }

  /** The first j entries have been tried on a letter, with the result `t`. */
  ghost predicate ShortTo(cfg: Config, entries: seq<Entry>, letter: char, rest: seq<string>, took: bool, j: nat,
                          t: Taken)
    requires j <= |entries|
  {
    && t.used <= 1 && (t.used == 1 ==> !took && rest != [])
    && forall k :: OnDemand(j, k) ==>
         ShortEntries(cfg, entries, letter, rest, took, NotTaken)
         == ShortEntries(cfg, entries[j..], letter, rest, took, t)
  }

  lemma ShortStart(cfg: Config, entries: seq<Entry>, letter: char, rest: seq<string>, took: bool)
    ensures ShortTo(cfg, entries, letter, rest, took, 0, NotTaken)
  {
    assert entries[0..] == entries;
  }

  lemma ShortEnd(cfg: Config, entries: seq<Entry>, letter: char, rest: seq<string>, took: bool, t: Taken)
    requires ShortTo(cfg, entries, letter, rest, took, |entries|, t)
    ensures ShortEntries(cfg, entries, letter, rest, took, NotTaken) == t
  {
    assert OnDemand(|entries|, 0) && entries[|entries|..] == [];
  }

  lemma ShortUnfold(cfg: Config, entries: seq<Entry>, letter: char, rest: seq<string>, took: bool, j: nat, t: Taken)
    requires j < |entries| && t.used <= 1 && (t.used == 1 ==> !took && rest != []) && t.status.Done?
    ensures ShortEntries(cfg, entries[j..], letter, rest, took, t)
            == ShortEntries(cfg, entries[j + 1..], letter, rest, took,
                            ShortEntry(cfg, entries[j], letter, rest, took, t))
  {
    assert entries[j..][0] == entries[j] && entries[j..][1..] == entries[j + 1..];
  }

  lemma ShortStep(cfg: Config, entries: seq<Entry>, letter: char, rest: seq<string>, took: bool, j: nat, t: Taken,
                  t': Taken)
    requires j < |entries| && t.status.Done? && ShortTo(cfg, entries, letter, rest, took, j, t)
    requires IsShortEntry(cfg, entries[j], letter, rest, took, t, t')
    ensures if t'.status.Done? then ShortTo(cfg, entries, letter, rest, took, j + 1, t')
            else ShortEntries(cfg, entries, letter, rest, took, NotTaken) == t'
  {
    assert OnDemand(j, 0) && OnDemand(0, 0);
    ShortUnfold(cfg, entries, letter, rest, took, j, t);
  }

  /** `t'` is what one entry that is not skipped makes of `t`. */
  ghost predicate IsLongEntry(cfg: Config, e: Entry, arg: string, rest: seq<string>, t: Taken, t': Taken) {
    t.used <= |rest| && forall k :: OnDemand(0, k) ==> t' == LongEntry(cfg, e, arg, false, rest, t)
  }

  /** The first j entries have been tried on a long option, with the result `t`. */
  ghost predicate LongTo(cfg: Config, entries: seq<Entry>, arg: string, aliased: bool, rest: seq<string>, j: nat,
                         t: Taken)
    requires j <= |entries|
  {
    t.used <= |rest| &&
    forall k :: OnDemand(j, k) ==>
      LongEntries(cfg, entries, arg, aliased, rest, NotTaken) == LongEntries(cfg, entries[j..], arg, aliased, rest, t)
  }

  lemma LongStart(cfg: Config, entries: seq<Entry>, arg: string, aliased: bool, rest: seq<string>)
    ensures LongTo(cfg, entries, arg, aliased, rest, 0, NotTaken)
  {
    assert entries[0..] == entries;
  }

  lemma LongEnd(cfg: Config, entries: seq<Entry>, arg: string, aliased: bool, rest: seq<string>, t: Taken)
    requires LongTo(cfg, entries, arg, aliased, rest, |entries|, t)
    ensures LongEntries(cfg, entries, arg, aliased, rest, NotTaken) == t
  {
    assert OnDemand(|entries|, 0) && entries[|entries|..] == [];
  }

  lemma LongUnfold(cfg: Config, entries: seq<Entry>, arg: string, aliased: bool, rest: seq<string>, j: nat, t: Taken)
    requires j < |entries| && t.used <= |rest| && t.status.Done?
    ensures LongEntries(cfg, entries[j..], arg, aliased, rest, t)
            == LongEntries(cfg, entries[j + 1..], arg, aliased, rest,
                           if aliased && entries[j].noAlias then t else LongEntry(cfg, entries[j], arg, false, rest, t))
  {
    assert entries[j..][0] == entries[j] && entries[j..][1..] == entries[j + 1..];
  }

  lemma LongSkips(cfg: Config, entries: seq<Entry>, arg: string, aliased: bool, rest: seq<string>, j: nat, t: Taken)
    requires j < |entries| && t.status.Done? && aliased && entries[j].noAlias
    requires LongTo(cfg, entries, arg, aliased, rest, j, t)
    ensures LongTo(cfg, entries, arg, aliased, rest, j + 1, t)
  {
    assert OnDemand(j, 0);
    LongUnfold(cfg, entries, arg, aliased, rest, j, t);
  }

  lemma LongStep(cfg: Config, entries: seq<Entry>, arg: string, aliased: bool, rest: seq<string>, j: nat, t: Taken,
                 t': Taken)
    requires j < |entries| && t.status.Done? && !(aliased && entries[j].noAlias)
    requires LongTo(cfg, entries, arg, aliased, rest, j, t) && IsLongEntry(cfg, entries[j], arg, rest, t, t')
    ensures if t'.status.Done? then LongTo(cfg, entries, arg, aliased, rest, j + 1, t')
            else LongEntries(cfg, entries, arg, aliased, rest, NotTaken) == t'
  {
    assert OnDemand(j, 0) && OnDemand(0, 0);
    LongUnfold(cfg, entries, arg, aliased, rest, j, t);
  }

  lemma {:induction false} ShortIdle(cfg: Config, entries: seq<Entry>, letter: char, rest: seq<string>, took: bool,
                                     t: Taken)
    requires t.used <= 1 && (t.used == 1 ==> !took && rest != [])
    ensures var t' := ShortEntries(cfg, entries, letter, rest, took, t);
            && (t.parsed ==> t'.parsed)
            && (t'.status.Done? && !t'.parsed ==> t' == t)
    decreases |entries|
  {
    if entries != [] && t.status.Done? {
      ShortIdle(cfg, entries[1..], letter, rest, took, ShortEntry(cfg, entries[0], letter, rest, took, t));
    }
  }

  /** The first |nulledOut| letters of a cluster have been dealt with. */
  ghost predicate LettersTo(cfg: Config, letters: string, rest: seq<string>, events: seq<Event>, nulledOut: seq<bool>,
                            took: bool, parsed: bool)
    requires |nulledOut| <= |letters|
  {
    var j := |nulledOut|;
    forall k :: OnDemand(j, k) ==>
      Letters(cfg, letters, rest, false, false)
      == Joined(events, Survivors(letters[..j], nulledOut), Letters(cfg, letters[j..], rest, took, parsed))
  }

  lemma LettersStart(cfg: Config, letters: string, rest: seq<string>)
    ensures LettersTo(cfg, letters, rest, [], [], false, false)
  {
    var c := Letters(cfg, letters, rest, false, false);
    assert letters[0..] == letters && [] + c.events == c.events && [] + c.unknown == c.unknown;
  }

  lemma LettersEnd(cfg: Config, letters: string, rest: seq<string>, events: seq<Event>, nulledOut: seq<bool>,
                   took: bool, parsed: bool)
    requires |nulledOut| == |letters| && LettersTo(cfg, letters, rest, events, nulledOut, took, parsed)
    ensures Letters(cfg, letters, rest, false, false)
            == Cluster(Done, events, took, Survivors(letters, nulledOut), parsed)
  {
    assert OnDemand(|letters|, 0);
    assert letters[|letters|..] == [] && letters[..|letters|] == letters && events + [] == events;
    assert Survivors(letters, nulledOut) + [] == Survivors(letters, nulledOut);
  }

  /** The next letter of a cluster; an unparsed letter is one nothing was applied for. */
  lemma LettersStep(cfg: Config, letters: string, rest: seq<string>, events: seq<Event>, nulledOut: seq<bool>,
                    took: bool, parsed: bool)
    requires |nulledOut| < |letters| && LettersTo(cfg, letters, rest, events, nulledOut, took, parsed)
    ensures LetterDone(cfg, letters, rest, events, nulledOut, took, Letter(cfg, letters[|nulledOut|], rest, took))
  {
    var t := Letter(cfg, letters[|nulledOut|], rest, took);
    if !t.status.Done? || (!t.parsed && !cfg.ignoreUnknown) {
      LetterStops(cfg, letters, rest, events, nulledOut, took, parsed, t);
    } else if t.parsed || (t.events == [] && t.used == 0) {
      LetterGoesOn(cfg, letters, rest, events, nulledOut, took, parsed, t);
    }
  }

  /** What the result `t` of the next letter means for the cluster. */
  ghost predicate LetterDone(cfg: Config, letters: string, rest: seq<string>, events: seq<Event>, nulledOut: seq<bool>,
                             took: bool, t: Taken)
    requires |nulledOut| < |letters|
  {
    if !t.status.Done? then ClusterFails(cfg, letters, rest, t.status, events + t.events)
    else if !t.parsed && !cfg.ignoreUnknown then ClusterFails(cfg, letters, rest, UnknownOption, events)
    else t.parsed || (t.events == [] && t.used == 0) ==>
      LettersTo(cfg, letters, rest, events + t.events, nulledOut + [t.parsed], took || t.used == 1, t.parsed)
  }

  ghost predicate ClusterFails(cfg: Config, letters: string, rest: seq<string>, status: Status, events: seq<Event>) {
    var c := Letters(cfg, letters, rest, false, false);
    c.status == status && c.events == events
  }

  lemma LetterStops(cfg: Config, letters: string, rest: seq<string>, events: seq<Event>, nulledOut: seq<bool>,
                    took: bool, parsed: bool, t: Taken)
    requires |nulledOut| < |letters| && LettersTo(cfg, letters, rest, events, nulledOut, took, parsed)
    requires t == Letter(cfg, letters[|nulledOut|], rest, took)
    requires !t.status.Done? || (!t.parsed && !cfg.ignoreUnknown)
    ensures ClusterFails(cfg, letters, rest, if t.status.Done? then UnknownOption else t.status,
                         if t.status.Done? then events else events + t.events)
  {
    assert OnDemand(|nulledOut|, 0);
    LettersUnfold(cfg, letters, |nulledOut|, rest, took, parsed);
    assert events + [] == events;
  }

  lemma LetterGoesOn(cfg: Config, letters: string, rest: seq<string>, events: seq<Event>, nulledOut: seq<bool>,
                     took: bool, parsed: bool, t: Taken)
    requires |nulledOut| < |letters| && LettersTo(cfg, letters, rest, events, nulledOut, took, parsed)
    requires t == Letter(cfg, letters[|nulledOut|], rest, took) && t.status.Done?
    requires t.parsed || (cfg.ignoreUnknown && t.events == [] && t.used == 0)
    ensures LettersTo(cfg, letters, rest, events + t.events, nulledOut + [t.parsed], took || t.used == 1, t.parsed)
  {
    assert OnDemand(|nulledOut|, 0);
    var c := Letters(cfg, letters, rest, false, false);
    LetterJoins(cfg, letters, rest, events, nulledOut, took, parsed, t, c);
    LettersAt(cfg, letters, rest, events + t.events, nulledOut + [t.parsed], took || t.used == 1, t.parsed, c);
  }

  lemma LettersAt(cfg: Config, letters: string, rest: seq<string>, events: seq<Event>, nulledOut: seq<bool>,
                  took: bool, parsed: bool, c: Cluster)
    requires |nulledOut| <= |letters| && c == Letters(cfg, letters, rest, false, false)
    requires var j := |nulledOut|;
             c == Joined(events, Survivors(letters[..j], nulledOut), Letters(cfg, letters[j..], rest, took, parsed))
    ensures LettersTo(cfg, letters, rest, events, nulledOut, took, parsed)
  {
  }

  lemma LetterJoins(cfg: Config, letters: string, rest: seq<string>, events: seq<Event>, nulledOut: seq<bool>,
                    took: bool, parsed: bool, t: Taken, c: Cluster)
    requires |nulledOut| < |letters| && t == Letter(cfg, letters[|nulledOut|], rest, took) && t.status.Done?
    requires t.parsed || (cfg.ignoreUnknown && t.events == [] && t.used == 0)
    requires var j := |nulledOut|;
             c == Joined(events, Survivors(letters[..j], nulledOut), Letters(cfg, letters[j..], rest, took, parsed))
    ensures var j := |nulledOut| + 1;
            c == Joined(events + t.events, Survivors(letters[..j], nulledOut + [t.parsed]),
                        Letters(cfg, letters[j..], rest, took || t.used == 1, t.parsed))
  {
    var j := |nulledOut|;
    LettersUnfold(cfg, letters, j, rest, took, parsed);
    SurvivorsSnoc(letters, nulledOut, t.parsed);
    JoinedTwice(events, Survivors(letters[..j], nulledOut), t.events, if t.parsed then [] else [letters[j]],
                Letters(cfg, letters[j + 1..], rest, took || t.used == 1, t.parsed));
  }

  lemma LettersUnfold(cfg: Config, letters: string, j: nat, rest: seq<string>, took: bool, parsed: bool)
    requires j < |letters|
    ensures var t := Letter(cfg, letters[j], rest, took);
            var c := Letters(cfg, letters[j..], rest, took, parsed);
            if !t.status.Done? then c.status == t.status && c.events == t.events
            else if !t.parsed && !cfg.ignoreUnknown then c.status == UnknownOption && c.events == []
            else t.parsed || (t.events == [] && t.used == 0) ==>
              c == Joined(t.events, if t.parsed then [] else [letters[j]],
                          Letters(cfg, letters[j + 1..], rest, took || t.used == 1, t.parsed))
  {
    assert letters[j..][0] == letters[j] && letters[j..][1..] == letters[j + 1..];
    var t := Letter(cfg, letters[j], rest, took);
    var a := Letters(cfg, letters[j + 1..], rest, took || t.used == 1, t.parsed);
    assert [] + a.unknown == a.unknown && [] + a.events == a.events;
  }

  lemma JoinedTwice(e1: seq<Event>, u1: string, e2: seq<Event>, u2: string, c: Cluster)
    ensures Joined(e1, u1, Joined(e2, u2, c)) == Joined(e1 + e2, u1 + u2, c)
  {
    assert e1 + (e2 + c.events) == e1 + e2 + c.events;
    assert u1 + (u2 + c.unknown) == u1 + u2 + c.unknown;
  }

  lemma SurvivorsLast(letters: string, nulledOut: seq<bool>)
    requires |letters| == |nulledOut| > 0
    ensures var l := |letters| - 1;
            Survivors(letters, nulledOut)
            == Survivors(letters[..l], nulledOut[..l]) + if nulledOut[l] then [] else [letters[l]]
  {
  }

  lemma SurvivorsSnoc(letters: string, nulledOut: seq<bool>, parsed: bool)
    requires |nulledOut| < |letters|
    ensures var j := |nulledOut|;
            Survivors(letters[..j + 1], nulledOut + [parsed])
            == Survivors(letters[..j], nulledOut) + if parsed then [] else [letters[j]]
  {
    var j := |nulledOut|;
    var head, flags := letters[..j + 1], nulledOut + [parsed];
    SurvivorsLast(head, flags);
    assert head[..j] == letters[..j] && flags[..j] == nulledOut;
  }

  // ----- closing the gaps

  function NonNull(slots: seq<Slot>): seq<Slot> {
    if slots == [] then [] else (if slots[0].Null? then [] else [slots[0]]) + NonNull(slots[1..])
  }

  lemma {:induction false} NonNullAppend(a: seq<Slot>, b: seq<Slot>)
    ensures NonNull(a + b) == NonNull(a) + NonNull(b)
  {
    if a == [] {
      assert a + b == b;
    } else {
      assert (a + b)[1..] == a[1..] + b;
      NonNullAppend(a[1..], b);
    }
  }

  lemma {:induction false} AllNull(a: seq<Slot>)
    requires forall k :: 0 <= k < |a| ==> a[k].Null?
    ensures NonNull(a) == []
  {
    if a != [] {
      AllNull(a[1..]);
    }
  }

  /** `b` is `a` with the slots behind a gap moved down over it and NULLs behind them. */
  ghost predicate Shifted(a: seq<Slot>, b: seq<Slot>, from: nat, gap: nat, argc: nat) {
    forall k :: OnDemand(argc, k) ==> SlotsShifted(a, b, from, gap, argc)
  }

  ghost predicate SlotsShifted(a: seq<Slot>, b: seq<Slot>, from: nat, gap: nat, argc: nat) {
    && |a| == |b| && from + gap <= argc <= |a|
    && (forall m {:trigger b[m]} :: 0 <= m < from || argc <= m < |a| ==> b[m] == a[m])
    && (forall m {:trigger b[m]} :: from <= m < argc - gap ==> b[m] == a[m + gap])
    && (forall m {:trigger b[m]} :: argc - gap <= m < argc ==> b[m].Null?)
  }

  lemma ShiftStart(a: seq<Slot>, from: nat, gap: nat)
    requires from + gap <= |a| && forall k :: from <= k < from + gap ==> a[k].Null?
    ensures Shifted(a, a, from, gap, from + gap)
  {
  }

  lemma ShiftStep(a: seq<Slot>, b: seq<Slot>, from: nat, gap: nat, j: nat)
    requires 0 < gap && from + gap <= j < |a| == |b| && Shifted(a, b, from, gap, j)
    ensures Shifted(a, b[j - gap := b[j]][j := Null], from, gap, j + 1)
  {
    assert OnDemand(j, 0);
    assert b[j] == a[j];
  }

  /** Moves one slot down, leaving NULL. */
  method MoveSlot(argv: array<Slot>, to: nat, from: nat)
    requires to < from < argv.Length
    modifies argv
    ensures argv[..] == old(argv[..])[to := old(argv[..])[from]][from := Null]
  {
    argv[to] := argv[from];
    argv[from] := Null;
  }

  /** Moves argv[from + gap .. argc] down by `gap` slots, one at a time, nulling the slots it leaves. */
  method ShiftDown(argv: array<Slot>, from: nat, gap: nat, argc: nat, ghost before: seq<Slot>)
    requires 0 < gap && from + gap <= argc <= argv.Length && before == argv[..]
    requires forall k :: from <= k < from + gap ==> argv[k].Null?
    modifies argv
    ensures Shifted(before, argv[..], from, gap, argc)
  {
    var j := from + gap;
    ShiftStart(before, from, gap);
    while j < argc
      invariant from + gap <= j <= argc && Shifted(before, argv[..], from, gap, j)
    {
      ShiftStep(before, argv[..], from, gap, j);
      MoveSlot(argv, j - gap, j);
      j := j + 1;
    }
  }

  /** The end of the run of NULLs starting at slot i. */
  method GapEnd(argv: array<Slot>, i: nat, argc: nat) returns (k: nat)
    requires i < argc <= argv.Length
    ensures i <= k <= argc && (k < argc ==> argv[k].Str?)
    ensures forall m :: i <= m < k ==> argv[m].Null?
  {
    k := i;
    while k < argc && argv[k].Null?
      invariant i <= k <= argc && forall m :: i <= m < k ==> argv[m].Null?
    {
      k := k + 1;
    }
  }

  lemma GapIsNothing(slots: seq<Slot>, i: nat, k: nat, n: nat)
    requires i <= k <= n <= |slots| && forall m :: i <= m < k ==> slots[m].Null?
    ensures NonNull(slots[i..n]) == NonNull(slots[k..n])
  {
    AllNull(slots[i..k]);
    NonNullAppend(slots[i..k], slots[k..n]);
    assert slots[i..n] == slots[i..k] + slots[k..n];
  }

  /** `b` is `a` without the NULLs at its slot i: a[i..n] has become b[i..m], and NULLs follow. */
  ghost predicate GapClosed(a: seq<Slot>, b: seq<Slot>, i: nat, n: nat, m: nat) {
    && |a| == |b| && i <= m <= n <= |a| && a[..i] == b[..i] && a[n..] == b[n..]
    && NonNull(b[i..m]) == NonNull(a[i..n]) && (i < m ==> b[i].Str?)
    && (forall k :: m <= k < n ==> b[k].Null?)
  }

  /** The run of NULLs at slot i of the first n slots ends before slot k. */
  ghost predicate HasGap(a: seq<Slot>, i: nat, k: nat, n: nat) {
    i <= k <= n <= |a| && (forall m :: i <= m < k ==> a[m].Null?) && (k < n ==> a[k].Str?)
  }

  lemma ShiftedSlices(a: seq<Slot>, b: seq<Slot>, i: nat, gap: nat, n: nat)
    requires Shifted(a, b, i, gap, n)
    ensures |a| == |b| && i + gap <= n <= |a|
    ensures b[..i] == a[..i] && b[i..n - gap] == a[i + gap..n] && b[n..] == a[n..]
    ensures forall k :: n - gap <= k < n ==> b[k].Null?
  {
    assert OnDemand(n, 0);
  }

  lemma ShiftCloses(a: seq<Slot>, b: seq<Slot>, i: nat, gap: nat, n: nat)
    requires HasGap(a, i, i + gap, n) && Shifted(a, b, i, gap, n)
    ensures GapClosed(a, b, i, n, n - gap)
  {
    ShiftedSlices(a, b, i, gap, n);
    GapIsNothing(a, i, i + gap, n);
    assert i < n - gap ==> b[i] == b[i..n - gap][0] == a[i + gap..n][0];
  }

  /** One turn of the outer loop: the run of NULLs starting at slot i is squeezed out. */
  method CloseGap(argv: array<Slot>, i: nat, argc: nat) returns (argc': nat)
    requires i < argc <= argv.Length
    modifies argv
    ensures GapClosed(old(argv[..]), argv[..], i, argc, argc')
  {
    var k := GapEnd(argv, i, argc);
    argc' := argc;
    ghost var before := argv[..];
    assert HasGap(before, i, k, argc);
    if k > i {
      var gap := k - i;
      ShiftDown(argv, i, gap, argc, before);
      ShiftCloses(before, argv[..], i, gap, argc);
      argc' := argc - gap;
    }
  }

  /** The nested loops at the end of a successful parse refine a plain filter. */
  method Compact(argv: array<Slot>, argc: nat) returns (argc': nat)
    requires 0 < argc <= argv.Length
    modifies argv
    ensures 0 < argc' <= argc && argv[..argc'] == [old(argv[0])] + NonNull(old(argv[1..argc]))
    ensures forall k :: argc' <= k < argc ==> argv[k].Null?
    ensures argv[argc..] == old(argv[argc..])
  {
    argc' := argc;
    var i := 1;
    assert argv[..1] == [argv[0]];
    while i < argc'
      invariant 0 < i <= argc' <= argc
      invariant [old(argv[0])] + NonNull(old(argv[1..argc])) == argv[..i] + NonNull(argv[i..argc'])
      invariant argv[argc..] == old(argv[argc..])
      invariant forall k :: argc' <= k < argc ==> argv[k].Null?
    {
      ghost var before, was := argv[..], argc';
      argc' := CloseGap(argv, i, argc');
      CloseGapStep(before, argv[..], i, was, argc', argc);
      if i < argc' {
        i := i + 1;
      }
    }
    assert argv[..i] + [] == argv[..i];
  }

  /** What closing one gap means for the slots already in place and those still ahead. */
  lemma CloseGapStep(a: seq<Slot>, b: seq<Slot>, i: nat, n: nat, m: nat, argc: nat)
    requires GapClosed(a, b, i, n, m) && n <= argc <= |a| && forall k :: n <= k < argc ==> a[k].Null?
    ensures a[..i] + NonNull(a[i..n]) == if i < m then b[..i + 1] + NonNull(b[i + 1..m]) else b[..i] + NonNull(b[i..m])
    ensures b[argc..] == a[argc..] && forall k :: m <= k < argc ==> b[k].Null?
  {
    TailAgrees(a, b, n);
    if i < m {
      var slot, more := b[i], NonNull(b[i + 1..m]);
      assert b[i..m][1..] == b[i + 1..m] && b[i..m][0] == slot;
      assert b[..i + 1] == b[..i] + [slot];
      Reassociate(b[..i], [slot], more);
    }
  }

  lemma TailAgrees(a: seq<Slot>, b: seq<Slot>, n: nat)
    requires |a| == |b| && n <= |a| && a[n..] == b[n..]
    ensures forall k :: n <= k < |a| ==> a[k] == b[k]
  {
    forall k | n <= k < |a| ensures a[k] == b[k] {
      assert a[k] == a[n..][k - n] && b[k] == b[n..][k - n];
    }
  }

  // ----- the pending list from one turn to the next

  predicate OnlyNulls(pending: seq<Pending>) {
    forall x :: x in pending ==> x.value.None?
  }

  predicate NoNewOverwrites(before: seq<Pending>, after: seq<Pending>) {
    forall x :: x in after && x.value.Some? ==> x in before
  }

  predicate Below(k: nat, n: nat) { k < n }

  /** Nothing has been decided anew about the arguments before n. */
  ghost predicate SameBelow(args: seq<string>, a: seq<Pending>, b: seq<Pending>, n: nat)
    requires n <= |args|
  {
    forall k: nat {:trigger Below(k, n)} :: Below(k, n) ==> Fate(a, k, Str(args[k])) == Fate(b, k, Str(args[k]))
  }

  /** What a turn at argument i does to the pending list. */
  ghost predicate LeavesNow(cfg: Config, args: seq<string>, before: seq<Pending>, after: seq<Pending>, i: nat,
                            t: Turn) {
    var next := i + t.used + 1;
    && next <= |args|
    && InOrder(after, args, next)
    && (Marks(after, next) <==> t.taken)
    && Kept(args, after, i, next) == t.kept
    && (!cfg.ignoreUnknown && OnlyNulls(before) ==> OnlyNulls(after))
    && SameBelow(args, before, after, i)
  }

  ghost predicate Leaves(cfg: Config, args: seq<string>, before: seq<Pending>, after: seq<Pending>, i: nat, t: Turn) {
    forall k :: OnDemand(|args|, k) ==> LeavesNow(cfg, args, before, after, i, t)
  }

  lemma FateCons(x: Pending, p: seq<Pending>, k: nat, s: Slot)
    ensures Fate([x] + p, k, s)
            == if x.slot != k then Fate(p, k, s)
               else if x.value.None? || Marks(p, k) then Null
               else Str("-" + x.value.value)
  {
    assert ([x] + p)[1..] == p;
    assert Pending(k, None) in [x] + p <==> Pending(k, None) == x || Pending(k, None) in p;
  }

  lemma {:induction false} FateRange(before: seq<Pending>, after: seq<Pending>, lo: nat, hi: nat, k: nat, s: Slot)
    requires MarkedRange(before, after, lo, hi)
    ensures Fate(after, k, s) == if lo <= k <= hi then Null else Fate(before, k, s)
    decreases |after|
  {
    if !(lo <= k <= hi) {
      OutsideRange(before, after, lo, hi, k, s);
    }
  }

  lemma {:induction false} OutsideRange(before: seq<Pending>, after: seq<Pending>, lo: nat, hi: nat, k: nat, s: Slot)
    requires |before| <= |after| && after[|after| - |before|..] == before && !(lo <= k <= hi)
    requires forall m :: 0 <= m < |after| - |before| ==> after[m].value.None? && lo <= after[m].slot <= hi
    ensures Fate(after, k, s) == Fate(before, k, s)
    decreases |after|
  {
    if |after| == |before| {
      assert after == before;
    } else {
      assert after == [after[0]] + after[1..];
      FateCons(after[0], after[1..], k, s);
      assert after[1..][|after[1..]| - |before|..] == before;
      OutsideRange(before, after[1..], lo, hi, k, s);
    }
  }

  lemma {:induction false} KeptNothing(args: seq<string>, pending: seq<Pending>, lo: nat, hi: nat)
    requires lo <= hi <= |args| && forall k :: lo <= k < hi ==> Marks(pending, k)
    ensures Kept(args, pending, lo, hi) == []
  {
    if lo < hi {
      KeptNothing(args, pending, lo, hi - 1);
    }
  }

  lemma RangeBelow(before: seq<Pending>, after: seq<Pending>, args: seq<string>, lo: nat, hi: nat)
    requires lo <= |args| && MarkedRange(before, after, lo, hi)
    ensures SameBelow(args, before, after, lo)
  {
    forall k: nat | Below(k, lo)
      ensures Fate(before, k, Str(args[k])) == Fate(after, k, Str(args[k]))
    {
      FateRange(before, after, lo, hi, k, Str(args[k]));
    }
  }

  lemma RangeMarked(before: seq<Pending>, after: seq<Pending>, args: seq<string>, lo: nat, hi: nat)
    requires 0 < lo <= hi < |args| && InOrder(before, args, lo) && MarkedRange(before, after, lo, hi)
    ensures InOrder(after, args, hi + 1) && !Marks(after, hi + 1) && Kept(args, after, lo, hi + 1) == []
    ensures NoNewOverwrites(before, after)
    ensures SameBelow(args, before, after, lo)
  {
    KeptNothing(args, after, lo, hi + 1);
    RangeBelow(before, after, args, lo, hi);
    RangeOrder(before, after, args, lo, hi);
  }

  lemma RangeMembers(before: seq<Pending>, after: seq<Pending>, lo: nat, hi: nat)
    requires MarkedRange(before, after, lo, hi)
    ensures forall x :: x in after ==> x in before || (x.value.None? && lo <= x.slot <= hi)
  {
    var n := |after| - |before|;
    forall x | x in after
      ensures x in before || (x.value.None? && lo <= x.slot <= hi)
    {
      var m :| 0 <= m < |after| && after[m] == x;
      if m >= n {
        assert x == after[n..][m - n];
      }
    }
  }

  lemma RangeOrder(before: seq<Pending>, after: seq<Pending>, args: seq<string>, lo: nat, hi: nat)
    requires 0 < lo <= hi < |args| && InOrder(before, args, lo) && MarkedRange(before, after, lo, hi)
    ensures InOrder(after, args, hi + 1) && NoNewOverwrites(before, after) && !Marks(after, hi + 1)
  {
    RangeMembers(before, after, lo, hi);
    var n := |after| - |before|;
    forall a, b | 0 <= a < b < |after| && after[b].value.Some?
      ensures after[a].slot != after[b].slot
    {
      assert after[b] == after[n..][b - n] == before[b - n] && before[b - n] in before;
      assert a >= n ==> after[a] == after[n..][a - n] == before[a - n];
    }
  }

  lemma NothingMarked(pending: seq<Pending>, args: seq<string>, i: nat)
    requires 0 < i < |args| && InOrder(pending, args, i)
    ensures InOrder(pending, args, i + 1) && !Marks(pending, i + 1)
    ensures Kept(args, pending, i, i + 1) == if Marks(pending, i) then [] else [args[i]]
  {
    OverwrittenUntouched(pending, i, Str(args[i]));
  }

  lemma RangeLeaves(cfg: Config, args: seq<string>, before: seq<Pending>, after: seq<Pending>, i: nat, hi: nat, t: Turn)
    requires 0 < i <= hi < |args| && InOrder(before, args, i) && MarkedRange(before, after, i, hi)
    requires t.used == hi - i && t.kept == [] && !t.taken
    ensures Leaves(cfg, args, before, after, i, t)
  {
    RangeMarked(before, after, args, i, hi);
  }

  lemma NothingLeaves(cfg: Config, args: seq<string>, pending: seq<Pending>, i: nat, t: Turn)
    requires 0 < i < |args| && InOrder(pending, args, i)
    requires t.used == 0 && !t.taken && t.kept == if Marks(pending, i) then [] else [args[i]]
    ensures Leaves(cfg, args, pending, pending, i, t)
  {
    NothingMarked(pending, args, i);
  }

  /** The pending list after a cluster at argument i. */
  function ClusterPending(before: seq<Pending>, i: nat, unknown: string, took: bool): seq<Pending> {
    [Pending(i, if unknown == [] then None else Some(unknown))]
    + ((if took then [Pending(i + 1, None)] else []) + before)
  }

  lemma ClusterFate(before: seq<Pending>, i: nat, unknown: string, took: bool, k: nat, s: Slot)
    requires k <= i
    ensures Fate(ClusterPending(before, i, unknown, took), k, s)
            == if k < i then Fate(before, k, s)
               else if unknown == [] || Marks(before, i) then Null
               else Str("-" + unknown)
  {
    var x := Pending(i, if unknown == [] then None else Some(unknown));
    var mid := (if took then [Pending(i + 1, None)] else []) + before;
    if took {
      FateCons(Pending(i + 1, None), before, k, s);
      assert Marks(mid, k) <==> Marks(before, k);
    } else {
      assert mid == before;
    }
    FateCons(x, mid, k, s);
  }

  lemma ClusterOrder(before: seq<Pending>, args: seq<string>, i: nat, unknown: string, took: bool)
    requires 0 < i < |args| && InOrder(before, args, i) && (took ==> i + 1 < |args|) && |unknown| < |args[i]|
    ensures InOrder(ClusterPending(before, i, unknown, took), args, i + 1)
    ensures Marks(ClusterPending(before, i, unknown, took), i + 1) <==> took
    ensures !Marks(ClusterPending(before, i, unknown, took), i + 2)
    ensures took && unknown == [] ==> Marks(ClusterPending(before, i, unknown, took), i)
    ensures unknown == [] && OnlyNulls(before) ==> OnlyNulls(ClusterPending(before, i, unknown, took))
  {
    var after := ClusterPending(before, i, unknown, took);
    var n := |after| - |before|;
    assert after[0].slot == i && (took ==> after[1] == Pending(i + 1, None));
    assert forall m :: n <= m < |after| ==> after[m] == before[m - n] && after[m] in before;
  }

  lemma ClusterMarked(before: seq<Pending>, args: seq<string>, i: nat, unknown: string, took: bool, ignoreUnknown: bool)
    requires 0 < i < |args| && InOrder(before, args, i) && (took ==> i + 1 < |args|) && |unknown| < |args[i]|
    requires !ignoreUnknown ==> unknown == []
    ensures var after := ClusterPending(before, i, unknown, took);
            var next := i + (if took && !ignoreUnknown then 2 else 1);
            && InOrder(after, args, next)
            && (Marks(after, next) <==> took && ignoreUnknown)
            && (unknown == [] && OnlyNulls(before) ==> OnlyNulls(after))
            && Kept(args, after, i, next) == (if Marks(before, i) || unknown == [] then [] else ["-" + unknown])
            && SameBelow(args, before, after, i)
  {
    ClusterOrder(before, args, i, unknown, took);
    ClusterKept(before, args, i, unknown, took);
    ClusterBelow(before, args, i, unknown, took);
    if took && !ignoreUnknown {
      ClusterTakesBoth(ClusterPending(before, i, unknown, took), args, i);
    }
  }

  lemma ClusterLeaves(cfg: Config, args: seq<string>, before: seq<Pending>, i: nat, c: Cluster, unknown: bool)
    requires 0 < i < |args| && InOrder(before, args, i) && (c.took ==> i + 1 < |args|) && |c.unknown| < |args[i]|
    requires !cfg.ignoreUnknown ==> c.unknown == []
    ensures Leaves(cfg, args, before, ClusterPending(before, i, c.unknown, c.took), i,
                   ClusterTurn(cfg, c, unknown, Marks(before, i)))
  {
    ClusterMarked(before, args, i, c.unknown, c.took, cfg.ignoreUnknown);
  }

  lemma ClusterTakesBoth(after: seq<Pending>, args: seq<string>, i: nat)
    requires i + 1 < |args| && InOrder(after, args, i + 1) && Marks(after, i) && Marks(after, i + 1)
    ensures InOrder(after, args, i + 2) && Kept(args, after, i, i + 2) == []
  {
    KeptNothing(args, after, i, i + 2);
  }

  lemma ClusterBelow(before: seq<Pending>, args: seq<string>, i: nat, unknown: string, took: bool)
    requires i < |args|
    ensures SameBelow(args, before, ClusterPending(before, i, unknown, took), i)
  {
    var after := ClusterPending(before, i, unknown, took);
    forall k: nat | Below(k, i)
      ensures Fate(before, k, Str(args[k])) == Fate(after, k, Str(args[k]))
    {
      ClusterFate(before, i, unknown, took, k, Str(args[k]));
    }
  }

  lemma ClusterKept(before: seq<Pending>, args: seq<string>, i: nat, unknown: string, took: bool)
    requires i < |args|
    ensures var after := ClusterPending(before, i, unknown, took);
            Kept(args, after, i, i + 1) == if Marks(before, i) || unknown == [] then [] else ["-" + unknown]
  {
    var after := ClusterPending(before, i, unknown, took);
    ClusterFate(before, i, unknown, took, i, Str(args[i]));
    assert Kept(args, after, i, i) == [];
    assert Kept(args, after, i, i + 1) == [] + Left(Fate(after, i, Str(args[i])));
  }

  function PrependTail(events: seq<Event>, kept: seq<string>, blocked: bool, t: Tail): Tail {
    Tail(t.status, events + t.events, if t.status.Done? then kept + t.kept else [],
         t.status.Done? && (blocked || t.blocked))
  }

  lemma {:induction false} KeptFrame(args: seq<string>, a: seq<Pending>, b: seq<Pending>, lo: nat, hi: nat)
    requires lo <= hi <= |args|
    requires forall k :: lo <= k < hi ==> Fate(a, k, Str(args[k])) == Fate(b, k, Str(args[k]))
    ensures Kept(args, a, lo, hi) == Kept(args, b, lo, hi)
  {
    if lo < hi {
      KeptFrame(args, a, b, lo, hi - 1);
    }
  }

  lemma KeptBelow(args: seq<string>, a: seq<Pending>, b: seq<Pending>, lo: nat, hi: nat, n: nat)
    requires lo <= hi <= n <= |args| && SameBelow(args, a, b, n)
    ensures Kept(args, a, lo, hi) == Kept(args, b, lo, hi)
  {
    forall k | lo <= k < hi
      ensures Fate(a, k, Str(args[k])) == Fate(b, k, Str(args[k]))
    {
      assert Below(k, n);
    }
    KeptFrame(args, a, b, lo, hi);
  }

  lemma SameBelowJoins(args: seq<string>, a: seq<Pending>, b: seq<Pending>, c: seq<Pending>, n: nat, m: nat)
    requires n <= m <= |args| && SameBelow(args, a, b, n) && SameBelow(args, b, c, m)
    ensures SameBelow(args, a, c, n)
  {
    forall k: nat | Below(k, n)
      ensures Fate(a, k, Str(args[k])) == Fate(c, k, Str(args[k]))
    {
      assert Below(k, m);
    }
  }

  lemma {:induction false} KeptSplit(args: seq<string>, pending: seq<Pending>, lo: nat, mid: nat, hi: nat)
    requires lo <= mid <= hi <= |args|
    ensures Kept(args, pending, lo, hi) == Kept(args, pending, lo, mid) + Kept(args, pending, mid, hi)
  {
    if mid < hi {
      KeptSplit(args, pending, lo, mid, hi - 1);
    }
  }

  // ----- the scan so far

  /** The scan has made the writes `events`, kept `kept` and goes on at argument i. */
  ghost predicate ScannedTo(cfg: Config, args: seq<string>, i: nat, unknown: bool, taken: bool, events: seq<Event>,
                            kept: seq<string>)
    requires 0 < i <= |args|
  {
    forall k :: OnDemand(i, k) ==>
      Scan(cfg, args[1..], false, false) == Prepend(events, kept, Scan(cfg, args[i..], unknown, taken))
  }

  /** ScannedTo, with what the pending list keeps. */
  ghost predicate Reached(cfg: Config, args: seq<string>, i: nat, unknown: bool, pending: seq<Pending>,
                          events: seq<Event>)
    requires 0 < i <= |args|
  {
    forall k :: OnDemand(i, k) ==>
      ScannedTo(cfg, args, i, unknown, Marks(pending, i), events, Kept(args, pending, 1, i))
  }

  /** The scan stands at argument i. */
  ghost predicate Stands(cfg: Config, args: seq<string>, i: nat, unknown: bool, pending: seq<Pending>,
                         events: seq<Event>) {
    0 < i <= |args| && forall k :: OnDemand(i, k) ==>
      && InOrder(pending, args, i) && (!cfg.ignoreUnknown ==> OnlyNulls(pending))
      && Reached(cfg, args, i, unknown, pending, events)
  }

  lemma StandsMeans(cfg: Config, args: seq<string>, i: nat, unknown: bool, pending: seq<Pending>, events: seq<Event>)
    requires Stands(cfg, args, i, unknown, pending, events)
    ensures InOrder(pending, args, i) && (!cfg.ignoreUnknown ==> OnlyNulls(pending))
    ensures Reached(cfg, args, i, unknown, pending, events)
  {
    assert OnDemand(i, 0);
  }

  ghost predicate IsNext(cfg: Config, args: seq<string>, i: nat, unknown: bool, taken: bool, t: Turn)
    requires i < |args|
  {
    forall k :: OnDemand(i, k) ==> t == Next(cfg, args[i], args[i + 1..], unknown, taken)
  }

  lemma NextByKind(cfg: Config, args: seq<string>, i: nat, unknown: bool, taken: bool)
    requires i < |args|
    ensures var arg, more := args[i], args[i + 1..];
            IsNext(cfg, args, i, unknown, taken,
                   if !IsOption(arg) then PlainTurn(Collect(cfg, arg), arg, unknown, taken)
                   else if arg[1] == '-' then LongTurn(cfg, Long(cfg, arg[2..], more), arg, unknown, taken)
                   else ClusterTurn(cfg, Letters(cfg, arg[1..], more, false, false), unknown, taken))
  {
  }

  ghost predicate ScanFails(cfg: Config, args: seq<string>, status: Status, events: seq<Event>)
    requires args != []
  {
    forall k :: OnDemand(0, k) ==> Scan(cfg, args[1..], false, false) == Outcome(status, events, [])
  }

  lemma ScannedNothing(cfg: Config, args: seq<string>)
    requires args != []
    ensures ScannedTo(cfg, args, 1, false, false, [], [])
  {
    FailureKeepsNothing(cfg, args[1..], false, false);
    PrependNothing(Scan(cfg, args[1..], false, false));
  }

  lemma Advanced(cfg: Config, args: seq<string>, i: nat, unknown: bool, before: seq<Pending>, after: seq<Pending>,
                 events: seq<Event>, t: Turn)
    requires i < |args| && args[i] != "--" && Stands(cfg, args, i, unknown, before, events)
    requires IsNext(cfg, args, i, unknown, Marks(before, i), t)
    requires t.status.Done? ==> Leaves(cfg, args, before, after, i, t)
    ensures if t.status.Done? then Stands(cfg, args, i + t.used + 1, t.unknown, after, events + t.events)
            else ScanFails(cfg, args, t.status, events + t.events)
  {
    assert OnDemand(i, 0);
    ScannedOneMore(cfg, args, i, unknown, Marks(before, i), events, Kept(args, before, 1, i), t);
    if t.status.Done? {
      LeavesKept(cfg, args, before, after, i, t);
    }
  }

  lemma LeavesKept(cfg: Config, args: seq<string>, before: seq<Pending>, after: seq<Pending>, i: nat, t: Turn)
    requires 0 < i < |args| && Leaves(cfg, args, before, after, i, t)
    ensures var next := i + t.used + 1;
            && next <= |args| && InOrder(after, args, next) && (Marks(after, next) <==> t.taken)
            && (!cfg.ignoreUnknown && OnlyNulls(before) ==> OnlyNulls(after))
            && Kept(args, after, 1, next) == Kept(args, before, 1, i) + t.kept
  {
    assert OnDemand(|args|, 0);
    KeptGrows(args, before, after, i, i + t.used + 1);
  }

  lemma KeptGrows(args: seq<string>, before: seq<Pending>, after: seq<Pending>, i: nat, next: nat)
    requires 1 <= i <= next <= |args| && SameBelow(args, before, after, i)
    ensures Kept(args, after, 1, next) == Kept(args, before, 1, i) + Kept(args, after, i, next)
  {
    KeptBelow(args, before, after, 1, i, i);
    KeptSplit(args, after, 1, i, next);
  }

  lemma ScannedOneMore(cfg: Config, args: seq<string>, i: nat, unknown: bool, taken: bool,
                       events: seq<Event>, kept: seq<string>, t: Turn)
    requires 0 < i < |args| && args[i] != "--" && ScannedTo(cfg, args, i, unknown, taken, events, kept)
    requires IsNext(cfg, args, i, unknown, taken, t)
    ensures !t.status.Done? ==> ScanFails(cfg, args, t.status, events + t.events)
    ensures t.status.Done? ==>
              && i + t.used + 1 <= |args|
              && ScannedTo(cfg, args, i + t.used + 1, t.unknown, t.taken, events + t.events, kept + t.kept)
  {
    ScanFrom(cfg, args, i, unknown, taken, t);
    assert OnDemand(i, 0);
    if t.status.Done? {
      PrependTwice(events, kept, t.events, t.kept, Scan(cfg, args[i + t.used + 1..], t.unknown, t.taken));
    }
  }

  lemma ScanFrom(cfg: Config, args: seq<string>, i: nat, unknown: bool, taken: bool, t: Turn)
    requires i < |args| && args[i] != "--" && IsNext(cfg, args, i, unknown, taken, t)
    ensures t.status.Done? ==> i + t.used + 1 <= |args|
    ensures Scan(cfg, args[i..], unknown, taken)
            == if !t.status.Done? then Outcome(t.status, t.events, [])
               else Prepend(t.events, t.kept, Scan(cfg, args[i + t.used + 1..], t.unknown, t.taken))
  {
    assert OnDemand(i, 0);
    DropTwice(args, i, t.used + 1);
    DropTwice(args, i, 1);
    ScanUnfold(cfg, args[i..], unknown, taken);
  }

  lemma DropTwice<T>(s: seq<T>, i: nat, n: nat)
    requires i <= |s|
    ensures i + n <= |s| ==> s[i..][n..] == s[i + n..]
  {
  }

  lemma ScanUnfold(cfg: Config, rest: seq<string>, unknown: bool, taken: bool)
    requires rest != [] && rest[0] != "--"
    ensures var t := Next(cfg, rest[0], rest[1..], unknown, taken);
            Scan(cfg, rest, unknown, taken)
            == if !t.status.Done? then Outcome(t.status, t.events, [])
               else Prepend(t.events, t.kept, Scan(cfg, rest[1 + t.used..], t.unknown, t.taken))
  {
  }

  /** After the separator at argument p, the arguments before i are dealt with. */
  ghost predicate RestScannedTo(cfg: Config, args: seq<string>, p: nat, i: nat, unknown: bool,
                                events: seq<Event>, kept: seq<string>, blocked: bool)
    requires p < i <= |args|
  {
    forall k :: OnDemand(i, k) ==>
      AfterSeparator(cfg, args[p + 1..], unknown)
      == PrependTail(events, kept, blocked, AfterSeparator(cfg, args[i..], unknown))
  }

  ghost predicate RestFails(cfg: Config, args: seq<string>, p: nat, unknown: bool, status: Status, events: seq<Event>)
    requires p < |args|
  {
    forall k :: OnDemand(0, k) ==>
      var t := AfterSeparator(cfg, args[p + 1..], unknown);
      !t.status.Done? && t.status == status && t.events == events
  }

  /** After the separator at argument p, the scan stands at argument i; `start` was pending at p. */
  ghost predicate RestStands(cfg: Config, args: seq<string>, p: nat, i: nat, unknown: bool, start: seq<Pending>,
                             pending: seq<Pending>, events: seq<Event>, blocked: bool) {
    p < i <= |args| && forall k :: OnDemand(i, k) ==>
      && InOrder(pending, args, i) && !Marks(pending, i)
      && NoNewOverwrites(start, pending) && SameBelow(args, start, pending, p + 1)
      && RestScannedTo(cfg, args, p, i, unknown, events, Kept(args, pending, p + 1, i), blocked)
  }

  lemma RestStart(cfg: Config, args: seq<string>, p: nat, unknown: bool, pending: seq<Pending>)
    requires p < |args| && InOrder(pending, args, p)
    ensures RestStands(cfg, args, p, p + 1, unknown, pending, pending, [], false)
  {
    RestScannedNothing(cfg, args, p, unknown);
  }

  lemma RestScannedNothing(cfg: Config, args: seq<string>, p: nat, unknown: bool)
    requires p < |args|
    ensures RestScannedTo(cfg, args, p, p + 1, unknown, [], [], false)
  {
    var t := AfterSeparator(cfg, args[p + 1..], unknown);
    assert [] + t.events == t.events && [] + t.kept == t.kept;
  }

  /** One turn after the separator. */
  lemma RestTurn(cfg: Config, args: seq<string>, p: nat, i: nat, unknown: bool, before: seq<Pending>, blocked: bool,
                 events: seq<Event>)
    requires 0 < p < i < |args| && InOrder(before, args, i) && !Marks(before, i)
    requires RestScannedTo(cfg, args, p, i, unknown, events, Kept(args, before, p + 1, i), blocked)
    ensures var t := Collect(cfg, args[i]);
            var after := (if t.parsed then [Pending(i, None)] else []) + before;
            && (!t.status.Done? ==> RestFails(cfg, args, p, unknown, t.status, events + t.events))
            && (t.status.Done? ==>
                  RestScannedTo(cfg, args, p, i + 1, unknown, events + t.events, Kept(args, after, p + 1, i + 1),
                                blocked || (!t.parsed && (unknown || Dashed(args[i])))))
  {
    var t := Collect(cfg, args[i]);
    RemainingKept(before, args, p, i, t.parsed);
    RestUnfold(cfg, args, p, i, unknown, blocked, events, Kept(args, before, p + 1, i));
  }

  lemma RemainingKept(before: seq<Pending>, args: seq<string>, p: nat, i: nat, parsed: bool)
    requires 0 < p < i < |args| && InOrder(before, args, i) && !Marks(before, i)
    ensures var after := (if parsed then [Pending(i, None)] else []) + before;
            Kept(args, after, p + 1, i + 1) == Kept(args, before, p + 1, i) + if parsed then [] else [args[i]]
  {
    RemainingMarked(before, args, i, parsed);
    KeptOneMore(args, before, (if parsed then [Pending(i, None)] else []) + before, p, i);
  }

  lemma KeptOneMore(args: seq<string>, before: seq<Pending>, after: seq<Pending>, p: nat, i: nat)
    requires p < i < |args| && SameBelow(args, before, after, i)
    ensures Kept(args, after, p + 1, i + 1) == Kept(args, before, p + 1, i) + Kept(args, after, i, i + 1)
  {
    KeptBelow(args, before, after, p + 1, i, i);
    KeptSplit(args, after, p + 1, i, i + 1);
  }

  lemma RestUnfold(cfg: Config, args: seq<string>, p: nat, i: nat, unknown: bool, blocked: bool,
                   events: seq<Event>, kept: seq<string>)
    requires p < i < |args| && RestScannedTo(cfg, args, p, i, unknown, events, kept, blocked)
    ensures var t := Collect(cfg, args[i]);
            if !t.status.Done? then RestFails(cfg, args, p, unknown, t.status, events + t.events)
            else RestScannedTo(cfg, args, p, i + 1, unknown, events + t.events,
                               kept + (if t.parsed then [] else [args[i]]),
                               blocked || (!t.parsed && (unknown || Dashed(args[i]))))
  {
    var t := Collect(cfg, args[i]);
    assert OnDemand(i, 0);
    AfterUnfold(cfg, args, i, unknown);
    var r := AfterSeparator(cfg, args[i + 1..], unknown);
    PrependTailTwice(events, kept, blocked, t.events, if t.parsed then [] else [args[i]],
                     !t.parsed && (unknown || Dashed(args[i])), r);
  }

  lemma AfterUnfold(cfg: Config, args: seq<string>, i: nat, unknown: bool)
    requires i < |args|
    ensures var t := Collect(cfg, args[i]);
            AfterSeparator(cfg, args[i..], unknown)
            == if !t.status.Done? then Tail(t.status, t.events, [], false)
               else PrependTail(t.events, if t.parsed then [] else [args[i]], !t.parsed && (unknown || Dashed(args[i])),
                                AfterSeparator(cfg, args[i + 1..], unknown))
  {
    assert args[i..][0] == args[i] && args[i..][1..] == args[i + 1..];
  }

  lemma PrependTailTwice(e1: seq<Event>, k1: seq<string>, b1: bool, e2: seq<Event>, k2: seq<string>, b2: bool, t: Tail)
    ensures PrependTail(e1, k1, b1, PrependTail(e2, k2, b2, t)) == PrependTail(e1 + e2, k1 + k2, b1 || b2, t)
  {
    assert e1 + (e2 + t.events) == e1 + e2 + t.events;
    assert k1 + (k2 + t.kept) == k1 + k2 + t.kept;
  }

  ghost predicate ScanEnds(cfg: Config, args: seq<string>, events: seq<Event>, kept: seq<string>)
    requires args != []
  {
    forall k :: OnDemand(0, k) ==> Scan(cfg, args[1..], false, false) == Outcome(Done, events, kept)
  }

  lemma ScannedAll(cfg: Config, args: seq<string>, unknown: bool, pending: seq<Pending>, events: seq<Event>)
    requires args != [] && Reached(cfg, args, |args|, unknown, pending, events)
    ensures ScanEnds(cfg, args, events, Kept(args, pending, 1, |args|))
  {
    assert OnDemand(|args|, 0);
    var kept := Kept(args, pending, 1, |args|);
    assert args[|args|..] == [] && events + [] == events && kept + [] == kept;
  }

  /** What the scan as a whole makes of the separator at argument p. */
  lemma SeparatorScan(cfg: Config, args: seq<string>, p: nat, unknown: bool, taken: bool, first: seq<Event>,
                      kept: seq<string>)
    requires 0 < p < |args| && args[p] == "--" && ScannedTo(cfg, args, p, unknown, taken, first, kept)
    ensures var t := AfterSeparator(cfg, args[p + 1..], unknown);
            if !t.status.Done? then ScanFails(cfg, args, t.status, first + t.events)
            else ScanEnds(cfg, args, first + t.events, kept + ((if taken || !t.blocked then [] else ["--"]) + t.kept))
  {
    assert OnDemand(p, 0);
    assert args[p..][0] == args[p] && args[p..][1..] == args[p + 1..];
  }

  lemma SeparatorDone(cfg: Config, args: seq<string>, p: nat, unknown: bool, before: seq<Pending>, after: seq<Pending>,
                      reset: bool, first: seq<Event>, more: seq<Event>, status: Status)
    requires 0 < p < |args| && args[p] == "--" && InOrder(before, args, p)
    requires Reached(cfg, args, p, unknown, before, first)
    requires !status.Done? ==> RestFails(cfg, args, p, unknown, status, more)
    requires status.Done? ==>
               RestStands(cfg, args, p, |args|, unknown, before, after, more, reset)
    ensures !status.Done? ==> ScanFails(cfg, args, status, first + more)
    ensures status.Done? ==>
              var final := if reset then after else [Pending(p, None)] + after;
              && InOrder(final, args, |args|) && (OnlyNulls(before) ==> OnlyNulls(final))
              && ScanEnds(cfg, args, first + more, Kept(args, final, 1, |args|))
  {
    assert OnDemand(p, 0) && OnDemand(|args|, 0);
    SeparatorScan(cfg, args, p, unknown, Marks(before, p), first, Kept(args, before, 1, p));
    RestResult(cfg, args, p, unknown, status, more, if status.Done? then Kept(args, after, p + 1, |args|) else [],
               reset);
    if status.Done? {
      SeparatorKept(args, p, before, after, reset);
    }
  }

  /** What ScanRest found, in terms of AfterSeparator. */
  lemma RestResult(cfg: Config, args: seq<string>, p: nat, unknown: bool, status: Status, more: seq<Event>,
                   kept: seq<string>, reset: bool)
    requires p < |args|
    requires !status.Done? ==> RestFails(cfg, args, p, unknown, status, more)
    requires status.Done? ==> RestScannedTo(cfg, args, p, |args|, unknown, more, kept, reset)
    ensures var t := AfterSeparator(cfg, args[p + 1..], unknown);
            && t.status == status && t.events == more
            && (status.Done? ==> t.kept == kept && t.blocked == reset)
  {
    if status.Done? {
      assert OnDemand(|args|, 0);
      NothingFollows(cfg, args, unknown, more, kept, reset);
    } else {
      assert OnDemand(0, 0);
    }
  }

  lemma NothingFollows(cfg: Config, args: seq<string>, unknown: bool, more: seq<Event>, kept: seq<string>, reset: bool)
    ensures PrependTail(more, kept, reset, AfterSeparator(cfg, args[|args|..], unknown))
            == Tail(Done, more, kept, reset)
  {
    assert args[|args|..] == [] && more + [] == more && kept + [] == kept;
  }

  lemma SeparatorKept(args: seq<string>, p: nat, before: seq<Pending>, after: seq<Pending>, reset: bool)
    requires 0 < p < |args| && args[p] == "--" && InOrder(before, args, p) && InOrder(after, args, |args|)
    requires NoNewOverwrites(before, after)
    requires SameBelow(args, before, after, p + 1)
    ensures var final := if reset then after else [Pending(p, None)] + after;
            && InOrder(final, args, |args|) && (OnlyNulls(before) ==> OnlyNulls(final))
            && Kept(args, final, 1, |args|)
               == Kept(args, before, 1, p)
                  + ((if Marks(before, p) || !reset then [] else ["--"]) + Kept(args, after, p + 1, |args|))
  {
    var final := if reset then after else [Pending(p, None)] + after;
    SeparatorFates(args, p, after, reset);
    KeptBelow(args, before, after, 1, p, p + 1);
    KeptFrame(args, after, final, 1, p);
    KeptFrame(args, after, final, p + 1, |args|);
    KeptSplit(args, final, 1, p, |args|);
    KeptSplit(args, final, p, p + 1, |args|);
    SeparatorSlot(args, p, before, after, reset);
    SeparatorOrder(args, p, before, after);
  }

  lemma SeparatorSlot(args: seq<string>, p: nat, before: seq<Pending>, after: seq<Pending>, reset: bool)
    requires 0 < p < |args| && args[p] == "--" && InOrder(before, args, p) && SameBelow(args, before, after, p + 1)
    ensures var final := if reset then after else [Pending(p, None)] + after;
            Kept(args, final, p, p + 1) == if Marks(before, p) || !reset then [] else ["--"]
  {
    var final := if reset then after else [Pending(p, None)] + after;
    OverwrittenUntouched(before, p, Str(args[p]));
    SeparatorFates(args, p, after, reset);
    assert Below(p, p + 1);
    assert Kept(args, final, p, p + 1) == [] + Left(Fate(final, p, Str(args[p])));
  }

  lemma SeparatorFates(args: seq<string>, p: nat, after: seq<Pending>, reset: bool)
    requires p < |args|
    ensures var final := if reset then after else [Pending(p, None)] + after;
            forall k :: 0 <= k < |args| ==>
              Fate(final, k, Str(args[k])) == if k == p && !reset then Null else Fate(after, k, Str(args[k]))
  {
    forall k | 0 <= k < |args|
      ensures Fate([Pending(p, None)] + after, k, Str(args[k])) == if k == p then Null else Fate(after, k, Str(args[k]))
    {
      FateCons(Pending(p, None), after, k, Str(args[k]));
    }
  }

  lemma SeparatorOrder(args: seq<string>, p: nat, before: seq<Pending>, after: seq<Pending>)
    requires 0 < p < |args| && InOrder(before, args, p)
    requires InOrder(after, args, |args|) && NoNewOverwrites(before, after)
    ensures InOrder([Pending(p, None)] + after, args, |args|)
    ensures OnlyNulls(after) ==> OnlyNulls([Pending(p, None)] + after)
  {
    var final := [Pending(p, None)] + after;
    assert forall a :: 0 < a < |final| ==> final[a] == after[a - 1] && final[a] in after;
  }

  // ----- the end of a parse

  function Strings(slots: seq<Slot>): (r: seq<string>)
    requires forall k :: 0 <= k < |slots| ==> slots[k].Str?
    ensures |r| == |slots| && forall k :: 0 <= k < |slots| ==> slots[k] == Str(r[k])
  {
    seq(|slots|, i requires 0 <= i < |slots| => slots[i].s)
  }

  function Strs(ss: seq<string>): (r: seq<Slot>)
    ensures |r| == |ss|
  {
    seq(|ss|, i requires 0 <= i < |ss| => Str(ss[i]))
  }

  /** The arguments whose slots are not in `marked`: what compaction is meant to leave. */
  function Unmarked(args: seq<string>, marked: set<nat>, lo: nat, hi: nat): seq<string>
    requires lo <= hi <= |args|
    decreases hi
  {
    if lo == hi then []
    else Unmarked(args, marked, lo, hi - 1) + if hi - 1 in marked then [] else [args[hi - 1]]
  }

  lemma {:induction false} UnmarkedLength(args: seq<string>, marked: set<nat>, hi: nat)
    requires hi <= |args|
    ensures |Unmarked(args, marked, 0, hi)| == hi - |set k | k in marked && k < hi|
  {
    var below := set k | k in marked && k < hi;
    if hi == 0 {
      assert below == {};
    } else {
      UnmarkedLength(args, marked, hi - 1);
      var before := set k | k in marked && k < hi - 1;
      assert below == if hi - 1 in marked then before + {hi - 1} else before;
    }
  }

  lemma {:induction false} KeptUnmarked(args: seq<string>, pending: seq<Pending>, marked: set<nat>, hi: nat)
    requires 1 <= hi <= |args| && OnlyNulls(pending) && InOrder(pending, args, |args|)
    requires forall k :: 0 <= k < |args| ==> (k in marked <==> Marks(pending, k))
    ensures [args[0]] + Kept(args, pending, 1, hi) == Unmarked(args, marked, 0, hi)
  {
    if hi == 1 {
      assert Unmarked(args, marked, 0, 0) == [];
      assert !Marks(pending, 0);
    } else {
      KeptUnmarked(args, pending, marked, hi - 1);
      OverwrittenUntouched(pending, hi - 1, Str(args[hi - 1]));
    }
  }

  lemma {:induction false} KeptNonNull(args: seq<string>, pending: seq<Pending>, slots: seq<Slot>, lo: nat, hi: nat)
    requires lo <= hi <= |args| <= |slots|
    requires forall k :: lo <= k < hi ==> slots[k] == Fate(pending, k, Str(args[k]))
    ensures NonNull(slots[lo..hi]) == Strs(Kept(args, pending, lo, hi))
  {
    if lo == hi {
      assert slots[lo..hi] == [];
    } else {
      var front, last, kept := slots[lo..hi - 1], slots[hi - 1], Kept(args, pending, lo, hi - 1);
      assert last == Fate(pending, hi - 1, Str(args[hi - 1]));
      KeptNonNull(args, pending, slots, lo, hi - 1);
      NonNullMore(front, last, kept);
      KeptLast(args, pending, lo, hi);
      SliceLast(slots, lo, hi);
    }
  }

  lemma SliceLast<T>(s: seq<T>, lo: nat, hi: nat)
    requires lo < hi <= |s|
    ensures s[lo..hi] == s[lo..hi - 1] + [s[hi - 1]]
  {
  }

  lemma NonNullMore(front: seq<Slot>, last: Slot, kept: seq<string>)
    requires NonNull(front) == Strs(kept)
    ensures NonNull(front + [last]) == Strs(kept + Left(last))
  {
    NonNullAppend(front, [last]);
    NonNullOne(last);
    StrsAppend(kept, Left(last));
  }

  lemma KeptLast(args: seq<string>, pending: seq<Pending>, lo: nat, hi: nat)
    requires lo < hi <= |args|
    ensures Kept(args, pending, lo, hi)
            == Kept(args, pending, lo, hi - 1) + Left(Fate(pending, hi - 1, Str(args[hi - 1])))
  {
  }

  lemma NonNullOne(s: Slot)
    ensures NonNull([s]) == Strs(Left(s))
  {
    assert [s][1..] == [];
  }

  lemma StrsAppend(a: seq<string>, b: seq<string>)
    ensures Strs(a + b) == Strs(a) + Strs(b)
  {
  }

  /** The slots once the pending list has been worked off, ready for compaction. */
  lemma SettledSlots(args: seq<string>, pending: seq<Pending>, slots: seq<Slot>)
    requires args != [] && |args| <= |slots| && InOrder(pending, args, |args|)
    requires forall k :: 0 <= k < |args| ==> slots[k] == Fate(pending, k, Str(args[k]))
    ensures [slots[0]] + NonNull(slots[1..|args|]) == Strs([args[0]] + Kept(args, pending, 1, |args|))
  {
    KeptNonNull(args, pending, slots, 1, |args|);
    SlotZeroStays(args, pending);
    var kept := Kept(args, pending, 1, |args|);
    assert Strs([args[0]] + kept) == [Str(args[0])] + Strs(kept);
  }

  lemma SlotZeroStays(args: seq<string>, pending: seq<Pending>)
    requires args != [] && InOrder(pending, args, |args|)
    ensures Fate(pending, 0, Str(args[0])) == Str(args[0])
  {
    OverwrittenUntouched(pending, 0, Str(args[0]));
  }

  lemma NothingToParse(cfg: Config, args: seq<string>)
    requires args == []
    ensures OptionModel.Parse(cfg, args) == Outcome(Done, [], []) && Unmarked(args, {}, 0, 0) == []
  {
  }

  lemma ParseFailed(cfg: Config, args: seq<string>, status: Status, events: seq<Event>)
    requires args != [] && !status.Done? && ScanFails(cfg, args, status, events)
    ensures var r := OptionModel.Parse(cfg, args);
            r.status == status && r.events == events
  {
    assert OnDemand(0, 0);
    assert [] + events == events;
  }

  lemma ParseDone(cfg: Config, args: seq<string>, events: seq<Event>, pending: seq<Pending>, marked: set<nat>)
    requires args != [] && InOrder(pending, args, |args|) && ScanEnds(cfg, args, events, Kept(args, pending, 1, |args|))
    requires !cfg.ignoreUnknown ==> OnlyNulls(pending)
    requires forall k :: k in marked <==> 0 <= k < |args| && Marks(pending, k)
    ensures var r := OptionModel.Parse(cfg, args);
            && r == Outcome(Done, events, [args[0]] + Kept(args, pending, 1, |args|))
            && 0 !in marked
            && (!cfg.ignoreUnknown ==> r.kept == Unmarked(args, marked, 0, |args|) && |r.kept| == |args| - |marked|)
  {
    assert OnDemand(0, 0);
    assert [] + events == events;
    if !cfg.ignoreUnknown {
      KeptUnmarked(args, pending, marked, |args|);
      UnmarkedLength(args, marked, |args|);
      assert marked == set k | k in marked && k < |args|;
    }
  }

  lemma Rollback(before: Store, events: seq<Event>)
    ensures before.changes == [] ==>
              var s := Replay(before, events);
              forall x :: Lookup(Revert(s.vars, s.changes), x) == Restored(Lookup(before.vars, x), On(events, x))
  {
    if before.changes == [] {
      forall x: Var {
        RollbackRestores(before.vars, events, x);
      }
    }
  }

  lemma RemainingMarked(before: seq<Pending>, args: seq<string>, i: nat, parsed: bool)
    requires 0 < i < |args| && InOrder(before, args, i) && !Marks(before, i)
    ensures var after := (if parsed then [Pending(i, None)] else []) + before;
            && InOrder(after, args, i + 1) && !Marks(after, i + 1)
            && NoNewOverwrites(before, after)
            && Kept(args, after, i, i + 1) == (if parsed then [] else [args[i]])
            && SameBelow(args, before, after, i)
  {
    if parsed {
      MarkedRangeOf(before, i, i);
      RangeMarked(before, [Pending(i, None)] + before, args, i, i);
    } else {
      assert [] + before == before;
      NothingMarked(before, args, i);
    }
  }

  lemma ReplayMore(s: Store, before: seq<Event>, after: seq<Event>)
    requires after == before || OneMore(before, after)
    ensures after != before ==> Replay(s, after) == Apply(Replay(s, before), after[|before|])
  {
    if after != before {
      assert after[..|after| - 1] == before;
    }
  }

  lemma MarkedRangeOf(p: seq<Pending>, lo: nat, hi: nat)
    requires lo <= hi <= lo + 1
    ensures MarkedRange(p, (if hi == lo then [Pending(lo, None)] else [Pending(hi, None)] + [Pending(lo, None)]) + p,
                        lo, hi)
  {
    var marks := if hi == lo then [Pending(lo, None)] else [Pending(hi, None)] + [Pending(lo, None)];
    assert marks[|marks| - 1] == Pending(lo, None) && marks[0] == Pending(hi, None);
    assert (marks + p)[0] == marks[0] && (marks + p)[|marks| - 1] == marks[|marks| - 1];
    assert Marks(marks + p, lo) && Marks(marks + p, hi);
  }

  lemma MarkedRangeJoins(a: seq<Pending>, b: seq<Pending>, c: seq<Pending>, lo: nat, mid: nat, hi: nat, joined: bool)
    requires if joined then MarkedRange(a, b, lo, mid) else a == b && lo == mid
    requires lo <= mid <= hi && MarkedRange(b, c, mid, hi)
    ensures MarkedRange(a, c, lo, hi)
  {
    var n := |c| - |b|;
    assert forall m :: n <= m < |c| ==> c[m] == c[n..][m - n];
    forall k | lo <= k <= hi
      ensures Marks(c, k)
    {
      assert forall x :: x in c[n..] ==> x in c;
      assert k < mid ==> Marks(b, k);
    }
    assert c[|c| - |a|..] == b[|b| - |a|..];
  }

  lemma ReplayOne(s: Store, r: ArgResult)
    ensures r.Write? ==> Replay(s, [] + [r.event]) == Apply(s, r.event)
  {
    if r.Write? {
      assert ([] + [r.event])[..0] == [];
    }
  }

  lemma {:induction false} OverwrittenUntouched(pending: seq<Pending>, slot: nat, s: Slot)
    requires !Rewrites(pending, slot)
    ensures Overwritten(pending, slot, s) == s
  {
    if pending != [] {
      assert pending[0] in pending;
      assert forall x :: x in pending[1..] ==> x in pending;
      OverwrittenUntouched(pending[1..], slot, s);
    }
  }

  lemma {:induction false} OverwrittenSnoc(pending: seq<Pending>, x: Pending, slot: nat, s: Slot)
    ensures Overwritten(pending + [x], slot, s)
            == Overwritten(pending, slot, if x.slot == slot && x.value.Some? then Str("-" + x.value.value) else s)
  {
    if pending == [] {
      assert pending + [x] == [x];
    } else {
      assert (pending + [x])[1..] == pending[1..] + [x];
      OverwrittenSnoc(pending[1..], x, slot, s);
    }
  }

  lemma FateSnoc(pending: seq<Pending>, m: nat, k: nat, s: Slot)
    requires OverwriteFirst(pending) && m < |pending| && s.Str?
    ensures var x := pending[m];
            Fate(pending[..m + 1], k, s)
            == if k != x.slot then Fate(pending[..m], k, s)
               else if x.value.None? then Null
               else Str("-" + x.value.value)
    ensures pending[m].value.Some? && pending[m].slot == k ==> Fate(pending[..m], k, s) == s
  {
    var x := pending[m];
    assert pending[..m + 1] == pending[..m] + [x];
    OverwrittenSnoc(pending[..m], x, k, s);
    if x.slot == k && x.value.Some? {
      forall y | y in pending[..m]
        ensures y.slot != k
      {
      }
      OverwrittenUntouched(pending[..m], k, s);
      OverwrittenUntouched(pending[..m], k, Str("-" + x.value.value));
    }
  }
}
