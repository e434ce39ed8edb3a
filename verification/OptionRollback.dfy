/**
 * What a failing parse gives back, in terms of the command line: how often the arguments
 * name an option bounds how often its variable is written.
 */
module OptionRollback {
  import opened Common
  import opened OptionModel
  import opened OptionStore

  /** The variable an entry writes. */
  function Writes(e: Entry): Var {
    Var(if e.arg.ArgFlag? then FlagKind
        else if e.arg.ArgStringArray? || e.arg.ArgFilenameArray? then ListKind
        else ScalarKind, e.data)
  }

  function GroupEntries(groups: seq<Group>): seq<Entry> {
    if groups == [] then [] else groups[0].entries + GroupEntries(groups[1..])
  }

  function AllEntries(cfg: Config): seq<Entry> {
    MainEntries(cfg) + GroupEntries(cfg.groups)
  }

  function Writers(entries: seq<Entry>, x: Var): nat {
    if entries == [] then 0 else (if Writes(entries[0]) == x then 1 else 0) + Writers(entries[1..], x)
  }

  /** `arg` is a long option or a cluster that `e` answers to, as itself or under its group's name. */
  predicate Names(e: Entry, arg: string) {
    IsOption(arg) &&
    if arg[1] == '-' then LongNames(e, arg[2..]) else e.short.Some? && e.short.value in arg[1..]
  }

  predicate LongNames(e: Entry, arg: string) {
    LongMatches(e, arg) || LongMatches(e, AliasOf(arg))
  }

  predicate NamesVar(cfg: Config, arg: string, x: Var) {
    exists e :: e in AllEntries(cfg) && Writes(e) == x && Names(e, arg)
  }

  /** How many of the arguments name an option that writes `x`. */
  function Naming(cfg: Config, args: seq<string>, x: Var): nat {
    if args == [] then 0 else (if NamesVar(cfg, args[0], x) then 1 else 0) + Naming(cfg, args[1..], x)
  }

  // ----- counting writes

  lemma {:induction false} OnAppend(a: seq<Event>, b: seq<Event>, x: Var)
    ensures On(a + b, x) == On(a, x) + On(b, x)
  {
    if b == [] {
      assert a + b == a && On(a, x) + [] == On(a, x);
    } else {
      var l := |b| - 1;
      assert (a + b)[..|a + b| - 1] == a + b[..l];
      OnAppend(a, b[..l], x);
      assert (a + b)[|a + b| - 1] == b[l];
    }
  }

  lemma OnOne(ev: Event, x: Var)
    ensures On([ev], x) == if ev.Target() == x then [ev] else []
  {
    assert [ev][..0] == [];
  }

  lemma OnMore(events: seq<Event>, ev: Event, x: Var)
    ensures On(events + [ev], x) == On(events, x) + if ev.Target() == x then [ev] else []
  {
    OnAppend(events, [ev], x);
    OnOne(ev, x);
  }

  lemma AppliedOn(cfg: Config, e: Entry, value: Option<string>, t: Taken, used: nat, x: Var)
    requires e.arg.ArgFlag? || value.Some?
    ensures var on := On(Applied(t, ArgEvent(cfg, e, value), used).events, x);
            if Writes(e) == x then |on| <= |On(t.events, x)| + 1 else on == On(t.events, x)
  {
    var r := ArgEvent(cfg, e, value);
    ArgEventWrites(cfg, e, value);
    if r.Write? {
      OnMore(t.events, r.event, x);
    }
  }

  lemma ArgEventWrites(cfg: Config, e: Entry, value: Option<string>)
    requires e.arg.ArgFlag? || value.Some?
    ensures var r := ArgEvent(cfg, e, value); r.Write? ==> r.event.Target() == Writes(e)
  {
  }

  // ----- short options: a cluster writes at most one number or text

  lemma ShortEntryOn(cfg: Config, e: Entry, letter: char, rest: seq<string>, took: bool, t: Taken, x: Var)
    requires t.used <= 1 && (t.used == 1 ==> !took && rest != [])
    ensures var t' := ShortEntry(cfg, e, letter, rest, took, t);
            && (x.kind.ScalarKind? ==> |On(t'.events, x)| - t'.used <= |On(t.events, x)| - t.used)
            && (e.short != Some(letter) || Writes(e) != x ==> On(t'.events, x) == On(t.events, x))
  {
    if e.short == Some(letter) {
      if e.arg.ArgFlag? {
        AppliedOn(cfg, e, None, t, 0, x);
      } else if rest != [] {
        AppliedOn(cfg, e, Some(rest[0]), t, 1, x);
      }
    }
  }

  /** No entry of `entries` both writes `x` and has the short name `letter`. */
  predicate LetterSpares(entries: seq<Entry>, letter: char, x: Var) {
    forall e :: e in entries && e.short == Some(letter) ==> Writes(e) != x
  }

  lemma {:induction false} ShortEntriesOn(cfg: Config, entries: seq<Entry>, letter: char, rest: seq<string>,
                                          took: bool, t: Taken, x: Var)
    requires t.used <= 1 && (t.used == 1 ==> !took && rest != [])
    ensures var t' := ShortEntries(cfg, entries, letter, rest, took, t);
            && (x.kind.ScalarKind? ==> |On(t'.events, x)| - t'.used <= |On(t.events, x)| - t.used)
            && (LetterSpares(entries, letter, x) ==> On(t'.events, x) == On(t.events, x))
    decreases |entries|
  {
    if entries != [] && t.status.Done? {
      assert entries[0] in entries && forall e :: e in entries[1..] ==> e in entries;
      ShortEntryOn(cfg, entries[0], letter, rest, took, t, x);
      ShortEntriesOn(cfg, entries[1..], letter, rest, took, ShortEntry(cfg, entries[0], letter, rest, took, t), x);
    }
  }

  lemma {:induction false} LetterGroupsOn(cfg: Config, groups: seq<Group>, letter: char, rest: seq<string>,
                                          took: bool, x: Var)
    ensures var t := LetterGroups(cfg, groups, letter, rest, took);
            && (x.kind.ScalarKind? ==> |On(t.events, x)| <= t.used)
            && (LetterSpares(GroupEntries(groups), letter, x) ==> On(t.events, x) == [])
  {
    if groups != [] {
      ShortEntriesOn(cfg, groups[0].entries, letter, rest, took, NotTaken, x);
      LetterGroupsOn(cfg, groups[1..], letter, rest, took, x);
    }
  }

  lemma LetterOn(cfg: Config, letter: char, rest: seq<string>, took: bool, x: Var)
    ensures var t := Letter(cfg, letter, rest, took);
            && (x.kind.ScalarKind? ==> |On(t.events, x)| <= t.used)
            && (LetterSpares(AllEntries(cfg), letter, x) ==> On(t.events, x) == [])
  {
    ShortEntriesOn(cfg, MainEntries(cfg), letter, rest, took, NotTaken, x);
    LetterGroupsOn(cfg, cfg.groups, letter, rest, took, x);
  }

  lemma {:induction false} LettersOn(cfg: Config, letters: string, rest: seq<string>, took: bool, parsed: bool, x: Var)
    ensures var c := Letters(cfg, letters, rest, took, parsed);
            && (x.kind.ScalarKind? ==> |On(c.events, x)| <= if took then 0 else 1)
            && ((forall l :: l in letters ==> LetterSpares(AllEntries(cfg), l, x)) ==> On(c.events, x) == [])
    decreases |letters|
  {
    if letters != [] {
      var t := Letter(cfg, letters[0], rest, took);
      LetterOn(cfg, letters[0], rest, took, x);
      assert letters[0] in letters && forall l :: l in letters[1..] ==> l in letters;
      if t.status.Done? && t.parsed {
        var took' := took || t.used == 1;
        LettersOn(cfg, letters[1..], rest, took', true, x);
        OnAppend(t.events, Letters(cfg, letters[1..], rest, took', true).events, x);
      } else if t.status.Done? {
        LettersOn(cfg, letters[1..], rest, took, false, x);
      }
    }
  }

  // ----- long options: each matching entry writes at most once

  function LongHits(entries: seq<Entry>, arg: string, x: Var): nat {
    if entries == [] then 0
    else (if Writes(entries[0]) == x && LongMatches(entries[0], arg) then 1 else 0) + LongHits(entries[1..], arg, x)
  }

  lemma {:induction false} HitsBound(entries: seq<Entry>, arg: string, x: Var)
    ensures LongHits(entries, arg, x) <= Writers(entries, x)
    ensures (forall e :: e in entries && Writes(e) == x ==> !LongMatches(e, arg)) ==> LongHits(entries, arg, x) == 0
  {
    if entries != [] {
      assert entries[0] in entries && forall e :: e in entries[1..] ==> e in entries;
      HitsBound(entries[1..], arg, x);
    }
  }

  lemma {:induction false} HitsAppend(a: seq<Entry>, b: seq<Entry>, arg: string, x: Var)
    ensures LongHits(a + b, arg, x) == LongHits(a, arg, x) + LongHits(b, arg, x)
  {
    if a == [] {
      assert a + b == b;
    } else {
      assert (a + b)[1..] == a[1..] + b;
      HitsAppend(a[1..], b, arg, x);
    }
  }

  lemma {:induction false} LongEntriesOn(cfg: Config, entries: seq<Entry>, arg: string, aliased: bool,
                                         rest: seq<string>, t: Taken, x: Var)
    requires t.used <= |rest|
    ensures |On(LongEntries(cfg, entries, arg, aliased, rest, t).events, x)|
            <= |On(t.events, x)| + LongHits(entries, arg, x)
    decreases |entries|
  {
    if entries != [] && t.status.Done? {
      LongEntryOn(cfg, entries[0], arg, aliased, rest, t, x);
      LongEntriesOn(cfg, entries[1..], arg, aliased, rest, LongEntry(cfg, entries[0], arg, aliased, rest, t), x);
    }
  }

  lemma LongEntryOn(cfg: Config, e: Entry, arg: string, aliased: bool, rest: seq<string>, t: Taken, x: Var)
    requires t.used <= |rest|
    ensures |On(LongEntry(cfg, e, arg, aliased, rest, t).events, x)|
            <= |On(t.events, x)| + if Writes(e) == x && LongMatches(e, arg) then 1 else 0
  {
    forall value: Option<string>, used: nat | e.arg.ArgFlag? || value.Some?
      ensures var on := On(Applied(t, ArgEvent(cfg, e, value), used).events, x);
              if Writes(e) == x then |on| <= |On(t.events, x)| + 1 else on == On(t.events, x)
    {
      AppliedOn(cfg, e, value, t, used, x);
    }
  }

  lemma {:induction false} LongGroupsOn(cfg: Config, groups: seq<Group>, arg: string, rest: seq<string>, x: Var)
    ensures |On(LongGroups(cfg, groups, arg, rest).events, x)| <= LongHits(GroupEntries(groups), arg, x)
  {
    if groups != [] {
      LongEntriesOn(cfg, groups[0].entries, arg, false, rest, NotTaken, x);
      LongGroupsOn(cfg, groups[1..], arg, rest, x);
      HitsAppend(groups[0].entries, GroupEntries(groups[1..]), arg, x);
    }
  }

  lemma {:induction false} AliasGroupsOn(cfg: Config, groups: seq<Group>, arg: string, dash: nat, rest: seq<string>,
                                         x: Var)
    requires dash < |arg|
    ensures |On(AliasGroups(cfg, groups, arg, dash, rest).events, x)|
            <= LongHits(GroupEntries(groups), arg[dash + 1..], x)
  {
    if groups != [] {
      LongEntriesOn(cfg, groups[0].entries, arg[dash + 1..], true, rest, NotTaken, x);
      AliasGroupsOn(cfg, groups[1..], arg, dash, rest, x);
      HitsAppend(groups[0].entries, GroupEntries(groups[1..]), arg[dash + 1..], x);
    }
  }

  /** What an entry has to match under its group's name. */
  function AliasOf(arg: string): string {
    if FirstDash(arg) < |arg| then arg[FirstDash(arg) + 1..] else arg
  }

  lemma LongFrom(cfg: Config, arg: string, rest: seq<string>)
    ensures var t, m, g := Long(cfg, arg, rest), LongEntries(cfg, MainEntries(cfg), arg, false, rest, NotTaken),
                           LongGroups(cfg, cfg.groups, arg, rest);
            t == m || t == g || t == NotTaken
            || (FirstDash(arg) < |arg| && t == AliasGroups(cfg, cfg.groups, arg, FirstDash(arg), rest))
  {
  }

  lemma AllHits(cfg: Config, arg: string, x: Var)
    ensures LongHits(MainEntries(cfg), arg, x) <= LongHits(AllEntries(cfg), arg, x)
    ensures LongHits(GroupEntries(cfg.groups), arg, x) <= LongHits(AllEntries(cfg), arg, x)
  {
    HitsAppend(MainEntries(cfg), GroupEntries(cfg.groups), arg, x);
  }

  lemma ByMain(cfg: Config, arg: string, rest: seq<string>, x: Var)
    ensures |On(LongEntries(cfg, MainEntries(cfg), arg, false, rest, NotTaken).events, x)|
            <= LongHits(AllEntries(cfg), arg, x)
  {
    AllHits(cfg, arg, x);
    LongEntriesOn(cfg, MainEntries(cfg), arg, false, rest, NotTaken, x);
  }

  lemma ByGroup(cfg: Config, arg: string, rest: seq<string>, x: Var)
    ensures |On(LongGroups(cfg, cfg.groups, arg, rest).events, x)| <= LongHits(AllEntries(cfg), arg, x)
  {
    AllHits(cfg, arg, x);
    LongGroupsOn(cfg, cfg.groups, arg, rest, x);
  }

  lemma ByAlias(cfg: Config, arg: string, rest: seq<string>, x: Var)
    requires FirstDash(arg) < |arg|
    ensures |On(AliasGroups(cfg, cfg.groups, arg, FirstDash(arg), rest).events, x)|
            <= LongHits(AllEntries(cfg), AliasOf(arg), x)
  {
    AllHits(cfg, AliasOf(arg), x);
    AliasGroupsOn(cfg, cfg.groups, arg, FirstDash(arg), rest, x);
  }

  lemma LongCount(cfg: Config, arg: string, rest: seq<string>, x: Var)
    ensures var n, all := |On(Long(cfg, arg, rest).events, x)|, AllEntries(cfg);
            n <= LongHits(all, arg, x) || n <= LongHits(all, AliasOf(arg), x)
  {
    LongFrom(cfg, arg, rest);
    ByMain(cfg, arg, rest, x);
    ByGroup(cfg, arg, rest, x);
    if FirstDash(arg) < |arg| {
      ByAlias(cfg, arg, rest, x);
    }
  }

  lemma LongOn(cfg: Config, arg: string, rest: seq<string>, x: Var)
    ensures var on := On(Long(cfg, arg, rest).events, x);
            && |on| <= Writers(AllEntries(cfg), x)
            && ((forall e :: e in AllEntries(cfg) && Writes(e) == x ==> !LongNames(e, arg)) ==> on == [])
  {
    LongCount(cfg, arg, rest, x);
    HitsBound(AllEntries(cfg), arg, x);
    HitsBound(AllEntries(cfg), AliasOf(arg), x);
  }

  // ----- the whole scan

  lemma {:induction false} CollectOn(cfg: Config, entries: seq<Entry>, arg: string, x: Var)
    requires !x.kind.ListKind?
    ensures On(CollectEntries(cfg, entries, arg).events, x) == []
  {
    if entries != [] {
      CollectOn(cfg, entries[1..], arg, x);
      AppliedOn(cfg, entries[0], Some(arg), NotTaken, 0, x);
    }
  }

  lemma {:induction false} AfterSeparatorOn(cfg: Config, rest: seq<string>, unknown: bool, x: Var)
    requires !x.kind.ListKind?
    ensures On(AfterSeparator(cfg, rest, unknown).events, x) == []
  {
    if rest != [] {
      CollectOn(cfg, MainEntries(cfg), rest[0], x);
      AfterSeparatorOn(cfg, rest[1..], unknown, x);
      OnAppend(Collect(cfg, rest[0]).events, AfterSeparator(cfg, rest[1..], unknown).events, x);
    }
  }

  /** The options of one argument that names none for `x` leave it alone; of any argument they write it once. */
  ghost predicate Counted(cfg: Config, events: seq<Event>, x: Var, named: nat) {
    && (named == 0 ==> On(events, x) == [])
    && (x.kind.ScalarKind? && Writers(AllEntries(cfg), x) <= 1 ==> |On(events, x)| <= named)
  }

  lemma NextOn(cfg: Config, arg: string, more: seq<string>, unknown: bool, taken: bool, x: Var)
    requires !x.kind.ListKind?
    ensures Counted(cfg, Next(cfg, arg, more, unknown, taken).events, x, if NamesVar(cfg, arg, x) then 1 else 0)
  {
    if !IsOption(arg) {
      CollectOn(cfg, MainEntries(cfg), arg, x);
    } else if arg[1] == '-' {
      LongOn(cfg, arg[2..], more, x);
    } else {
      LettersOn(cfg, arg[1..], more, false, false, x);
    }
  }

  lemma {:induction false} NamingDrops(cfg: Config, args: seq<string>, k: nat, x: Var)
    requires k <= |args|
    ensures Naming(cfg, args[k..], x) <= Naming(cfg, args, x)
  {
    if k > 0 {
      NamingDrops(cfg, args[1..], k - 1, x);
      assert args[1..][k - 1..] == args[k..];
    } else {
      assert args[0..] == args;
    }
  }

  lemma {:induction false} ScanOn(cfg: Config, rest: seq<string>, unknown: bool, taken: bool, x: Var)
    requires !x.kind.ListKind?
    ensures Counted(cfg, Scan(cfg, rest, unknown, taken).events, x, Naming(cfg, rest, x))
    decreases |rest|
  {
    if rest != [] {
      if rest[0] == "--" {
        AfterSeparatorOn(cfg, rest[1..], unknown, x);
      } else {
        var t := Next(cfg, rest[0], rest[1..], unknown, taken);
        NextOn(cfg, rest[0], rest[1..], unknown, taken, x);
        var left := rest[1 + t.used..];
        NamingDrops(cfg, rest[1..], t.used, x);
        assert rest[1..][t.used..] == left;
        ScanOn(cfg, left, t.unknown, t.taken, x);
        OnAppend(t.events, Scan(cfg, left, t.unknown, t.taken).events, x);
      }
    }
  }

  // ----- rolling back a command line

  /** The value of `x` after a parse of `args` was undone. */
  function RolledBack(cfg: Config, args: seq<string>, vars: map<Var, Value>, x: Var): Value {
    var s := Replay(Store(vars, []), Parse(cfg, args).events);
    Lookup(Revert(s.vars, s.changes), x)
  }

  /** Exactly when a failing parse gives a variable its entry value back. */
  lemma FailedParseIsExactWhen(cfg: Config, args: seq<string>, vars: map<Var, Value>, x: Var)
    requires !Parse(cfg, args).status.Done?
    ensures var before, on := Lookup(vars, x), On(Parse(cfg, args).events, x);
            RolledBack(cfg, args, vars, x) == before
            <==> match x.kind
                 case FlagKind => on == [] || before == FlagVal(false)
                 case ScalarKind => |on| <= 1 || on[|on| - 2] == SetScalar(x.id, before)
                 case ListKind => true
  {
    RollbackIsExactWhen(vars, Parse(cfg, args).events, x);
  }

  /**
   * Seen from the command line, whatever makes the parse fail: a list comes back always, a number or
   * text that one entry writes comes back if at most one argument names that entry, and a flag if it
   * was FALSE or no argument names it.
   */
  lemma OnceNamedComesBack(cfg: Config, args: seq<string>, vars: map<Var, Value>, x: Var)
    requires !Parse(cfg, args).status.Done?
    requires match x.kind
             case FlagKind => Lookup(vars, x) == FlagVal(false) || Naming(cfg, args[1..], x) == 0
             case ScalarKind => Writers(AllEntries(cfg), x) <= 1 && Naming(cfg, args[1..], x) <= 1
             case ListKind => true
    ensures RolledBack(cfg, args, vars, x) == Lookup(vars, x)
  {
    FailedParseIsExactWhen(cfg, args, vars, x);
    if !x.kind.ListKind? {
      ScanOn(cfg, args[1..], false, false, x);
      var o := Scan(cfg, args[1..], false, false);
      assert [] + o.events == o.events;
    }
  }

  // ----- two command lines that are not undone

  lemma ScanTurn(cfg: Config, arg: string, more: seq<string>, events: seq<Event>)
    requires arg != "--" && Next(cfg, arg, more, false, false) == Turn(Done, events, [], 0, false, false)
    ensures Scan(cfg, [arg] + more, false, false) == Prepend(events, [], Scan(cfg, more, false, false))
  {
    var rest := [arg] + more;
    assert rest[1..] == more && rest[1 + 0..] == more;
  }

  lemma ScanStops(cfg: Config, arg: string)
    requires arg != "--" && Next(cfg, arg, [], false, false) == Turn(UnknownOption, [], [], 0, false, false)
    ensures Scan(cfg, [arg], false, false) == Outcome(UnknownOption, [], [])
  {
    assert [arg][1..] == [];
  }

  /** Arguments that each make one write, then one that is unknown. */
  lemma ScanTwoAndStop(cfg: Config, a: string, b: string, bad: string, one: Event, two: Event)
    requires "--" !in [a, b, bad]
    requires Next(cfg, a, [b, bad], false, false) == Turn(Done, [one], [], 0, false, false)
    requires Next(cfg, b, [bad], false, false) == Turn(Done, [two], [], 0, false, false)
    requires Next(cfg, bad, [], false, false) == Turn(UnknownOption, [], [], 0, false, false)
    ensures Scan(cfg, [a, b, bad], false, false) == Outcome(UnknownOption, [one, two], [])
    ensures Scan(cfg, [b, bad], false, false) == Outcome(UnknownOption, [two], [])
  {
    ScanStops(cfg, bad);
    ScanTurn(cfg, b, [bad], [two]);
    assert [b] + [bad] == [b, bad];
    ScanTurn(cfg, a, [b, bad], [one]);
    assert [a] + [b, bad] == [a, b, bad];
  }

  lemma TwoWritesUndone(cfg: Config, args: seq<string>, vars: map<Var, Value>, id: nat, v: Value, w: Value)
    requires Parse(cfg, args).events == [SetScalar(id, v), SetScalar(id, w)]
    ensures RolledBack(cfg, args, vars, Var(ScalarKind, id)) == v
  {
    var one, two, x := SetScalar(id, v), SetScalar(id, w), Var(ScalarKind, id);
    RollbackRestores(vars, [one, two], x);
    OnMore([one], two, x);
    OnOne(one, x);
    assert [one] + [two] == [one, two];
  }

  lemma FlagUndone(cfg: Config, args: seq<string>, vars: map<Var, Value>, id: nat, b: bool)
    requires Parse(cfg, args).events == [SetFlag(id, b)]
    ensures RolledBack(cfg, args, vars, Var(FlagKind, id)) == FlagVal(false)
  {
    RollbackRestores(vars, [SetFlag(id, b)], Var(FlagKind, id));
    OnOne(SetFlag(id, b), Var(FlagKind, id));
  }

  /** One entry tried on a long option, in a program with one group. */
  lemma LongOfTwo(cfg: Config, e: Entry, f: Entry, arg: string, rest: seq<string>)
    requires MainEntries(cfg) == [e, f] && cfg.groups == []
    requires !LongMatches(e, arg) || !LongMatches(f, arg)
    ensures Long(cfg, arg, rest) == LongEntry(cfg, if LongMatches(e, arg) then e else f, arg, false, rest, NotTaken)
  {
    var entries := [e, f];
    var t := LongEntry(cfg, e, arg, false, rest, NotTaken);
    var u := LongEntry(cfg, f, arg, false, rest, t);
    assert entries[1..] == [f] && [f][1..] == [];
    assert LongEntries(cfg, [f], arg, false, rest, t) == if t.status.Done? then u else t;
    assert LongEntries(cfg, entries, arg, false, rest, NotTaken) == LongEntries(cfg, [f], arg, false, rest, t);
  }

  /** A program with a number --num and a flag --loud. */
  function Sample(): Config {
    Config(Some(Group("", [Entry("num", Some('n'), false, ArgInt, 0), Entry("loud", Some('l'), false, ArgFlag(false),
                                                                            0)])),
           [], false, (s: string) => Some(s),
           (s: string) => if s == "1" then Some(1) else if s == "2" then Some(2) else None)
  }

  lemma SampleNumber(arg: string, digit: string, n: int, more: seq<string>)
    requires arg == "--num=" + digit && Sample().readInt(digit) == Some(n)
    ensures Next(Sample(), arg, more, false, false) == Turn(Done, [SetScalar(0, IntVal(n))], [], 0, false, false)
  {
    var name := arg[2..];
    assert name == "num=" + digit && name[..3] == "num" && name[4..] == digit;
    var entries := MainEntries(Sample());
    LongOfTwo(Sample(), entries[0], entries[1], name, more);
  }

  lemma SampleLoud(arg: string, more: seq<string>)
    requires arg == "--loud"
    ensures Next(Sample(), arg, more, false, false) == Turn(Done, [SetFlag(0, true)], [], 0, false, false)
  {
    assert arg[2..] == "loud";
    var entries := MainEntries(Sample());
    LongOfTwo(Sample(), entries[0], entries[1], arg[2..], more);
  }

  lemma SampleUnknown(arg: string, more: seq<string>)
    requires arg == "--x"
    ensures Next(Sample(), arg, more, false, false) == Turn(UnknownOption, [], [], 0, false, false)
  {
    assert arg[2..] == "x";
    var entries := MainEntries(Sample());
    LongOfTwo(Sample(), entries[0], entries[1], arg[2..], more);
  }

  /** A number given twice in front of an unknown option is left at the value given first. */
  lemma RepeatedNumberIsLost(vars: map<Var, Value>)
    ensures var args := ["p", "--num=1", "--num=2", "--x"];
            && Parse(Sample(), args).status == UnknownOption
            && RolledBack(Sample(), args, vars, Var(ScalarKind, 0)) == IntVal(1)
  {
    var p, a, b, bad := "p", "--num=1", "--num=2", "--x";
    SampleNumber(a, "1", 1, [b, bad]);
    SampleNumber(b, "2", 2, [bad]);
    SampleUnknown(bad, []);
    ScanTwoAndStop(Sample(), a, b, bad, SetScalar(0, IntVal(1)), SetScalar(0, IntVal(2)));
    assert [p, a, b, bad][1..] == [a, b, bad];
    TwoWritesUndone(Sample(), [p, a, b, bad], vars, 0, IntVal(1), IntVal(2));
  }

  /** A flag that was TRUE and is named in front of an unknown option is left FALSE. */
  lemma FlagIsLost(vars: map<Var, Value>)
    ensures var args := ["p", "--loud", "--x"];
            && Parse(Sample(), args).status == UnknownOption
            && RolledBack(Sample(), args, vars, Var(FlagKind, 0)) == FlagVal(false)
  {
    var p, a, bad := "p", "--loud", "--x";
    SampleLoud(a, [bad]);
    SampleLoud(a, [a, bad]);
    SampleUnknown(bad, []);
    ScanTwoAndStop(Sample(), a, a, bad, SetFlag(0, true), SetFlag(0, true));
    assert [p, a, bad][1..] == [a, bad];
    FlagUndone(Sample(), [p, a, bad], vars, 0, true);
  }
}
