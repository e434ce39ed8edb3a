/**
 * What options store: the value of every variable after a command line made of options spelled in
 * any of the ways the parser reads, and the errors that end a command line
 * (Lab/sofsip-cli-0.16/src/replace_goption.c:723-1134).
 */
module OptionValues {
  import opened Common
  import opened OptionModel
  import opened OptionStore
  import opened OptionLaws
  import opened OptionRollback

  /** One option, or one other argument, as a user spells it. */
  datatype Use =
    | LongEq(e: Entry, v: string)               // --name=v
    | LongNext(e: Entry, v: string)             // --name v
    | LongFlag(e: Entry)                        // --name
    | AliasEq(g: string, e: Entry, v: string)   // --group-name=v
    | ShortNext(e: Entry, c: char, v: string)   // -c v
    | ShortFlag(e: Entry, c: char)              // -c
    | Rest(e: Entry, v: string)                 // v, collected
    | Stray(v: string)                          // v, left alone

  function Words(u: Use): seq<string> {
    match u
    case LongEq(e, v) => ["--" + (e.long + ("=" + v))]
    case LongNext(e, v) => ["--" + e.long, v]
    case LongFlag(e) => ["--" + e.long]
    case AliasEq(g, e, v) => ["--" + (g + ("-" + (e.long + ("=" + v))))]
    case ShortNext(_, c, v) => ["-" + [c], v]
    case ShortFlag(_, c) => ["-" + [c]]
    case Rest(_, v) => [v]
    case Stray(v) => [v]
  }

  function Spelled(us: seq<Use>): seq<string> {
    if us == [] then [] else Words(us[0]) + Spelled(us[1..])
  }

  function Strays(us: seq<Use>): seq<string> {
    if us == [] then [] else (if us[0].Stray? then [us[0].v] else []) + Strays(us[1..])
  }

  // ----- when a spelling is unambiguous

  /** `arg` is the entry's name, or its name with a value behind `=`. */
  predicate AnswersLong(e: Entry, arg: string) {
    arg == e.long || e.long + "=" <= arg
  }

  /** The entries of one group that answer; `aliased`: the group was named. */
  function LongAnswers(entries: seq<Entry>, arg: string, aliased: bool): seq<Entry> {
    if entries == [] then []
    else if AnswersLong(entries[0], arg) && !(aliased && entries[0].noAlias) then
      [entries[0]] + LongAnswers(entries[1..], arg, aliased)
    else LongAnswers(entries[1..], arg, aliased)
  }

  function FirstLong(groups: seq<Group>, arg: string): seq<Entry> {
    if groups == [] then []
    else if LongAnswers(groups[0].entries, arg, false) != [] then LongAnswers(groups[0].entries, arg, false)
    else FirstLong(groups[1..], arg)
  }

  /** The main group is asked first, then the groups in order, and the first in which someone answers decides. */
  function LongOwners(cfg: Config, arg: string): seq<Entry> {
    if LongAnswers(MainEntries(cfg), arg, false) != [] then LongAnswers(MainEntries(cfg), arg, false)
    else FirstLong(cfg.groups, arg)
  }

  /** Only groups whose name begins with `g` are asked. */
  function AliasOwners(groups: seq<Group>, g: string, arg: string): seq<Entry> {
    if groups == [] then []
    else if g <= groups[0].name && LongAnswers(groups[0].entries, arg, true) != [] then
      LongAnswers(groups[0].entries, arg, true)
    else AliasOwners(groups[1..], g, arg)
  }

  function ShortAnswers(entries: seq<Entry>, c: char): seq<Entry> {
    if entries == [] then []
    else if entries[0].short == Some(c) then [entries[0]] + ShortAnswers(entries[1..], c)
    else ShortAnswers(entries[1..], c)
  }

  function FirstShort(groups: seq<Group>, c: char): seq<Entry> {
    if groups == [] then []
    else if ShortAnswers(groups[0].entries, c) != [] then ShortAnswers(groups[0].entries, c)
    else FirstShort(groups[1..], c)
  }

  function ShortOwners(cfg: Config, c: char): seq<Entry> {
    if ShortAnswers(MainEntries(cfg), c) != [] then ShortAnswers(MainEntries(cfg), c)
    else FirstShort(cfg.groups, c)
  }

  function Collectors(entries: seq<Entry>): seq<Entry> {
    if entries == [] then []
    else if entries[0].long == "" then [entries[0]] + Collectors(entries[1..])
    else Collectors(entries[1..])
  }

  predicate LooksPlain(v: string) {
    v == "" || v == "-" || v[0] != '-'
  }

  /** A number is one, and a text can be converted. */
  predicate Readable(cfg: Config, e: Entry, v: string) {
    && (e.arg.ArgInt? ==> cfg.readInt(v).Some?)
    && (e.arg.ArgString? || e.arg.ArgStringArray? ==> cfg.convert(v).Some?)
  }

  predicate IsList(e: Entry) {
    e.arg.ArgStringArray? || e.arg.ArgFilenameArray?
  }

  /** The entry is the only one that answers to the spelling, and can read the value. */
  predicate Fits(cfg: Config, u: Use) {
    match u
    case LongEq(e, v) => e.long != "" && LongOwners(cfg, e.long + ("=" + v)) == [e] && Readable(cfg, e, v)
    case LongNext(e, v) =>
      e.long != "" && LongOwners(cfg, e.long) == [e] && !e.arg.ArgFlag? && Readable(cfg, e, v)
    case LongFlag(e) => e.long != "" && LongOwners(cfg, e.long) == [e] && e.arg.ArgFlag?
    case AliasEq(g, e, v) =>
      && '-' !in g && LongOwners(cfg, g + ("-" + (e.long + ("=" + v)))) == []
      && AliasOwners(cfg.groups, g, e.long + ("=" + v)) == [e] && Readable(cfg, e, v)
    case ShortNext(e, c, v) =>
      && c != '-' && ShortOwners(cfg, c) == [e] && !e.arg.ArgFlag? && Readable(cfg, e, v)
      && (cfg.ignoreUnknown ==> PassedBy(cfg, v))
    case ShortFlag(e, c) => c != '-' && ShortOwners(cfg, c) == [e] && e.arg.ArgFlag?
    case Rest(e, v) => LooksPlain(v) && Gathers(cfg, e) && Readable(cfg, e, v)
    case Stray(v) => PassedBy(cfg, v) || (cfg.ignoreUnknown && IsUnknown(cfg, v))
  }

  /** Neither an option nor collected. When unknown options are ignored, the value of a letter is looked at again. */
  predicate PassedBy(cfg: Config, v: string) {
    LooksPlain(v) && Collectors(MainEntries(cfg)) == []
  }

  /** A long option nobody answers to. */
  predicate IsUnknown(cfg: Config, v: string) {
    |v| > 2 && v[0] == v[1] == '-' && Unanswered(cfg, v[2..])
  }

  /** No entry answers to the long name, plain or behind a group's name. */
  predicate Unanswered(cfg: Config, name: string) {
    && LongOwners(cfg, name) == []
    && forall d :: 0 <= d < |name| && name[d] == '-' && '-' !in name[..d] ==>
         AliasOwners(cfg.groups, name[..d], name[d + 1..]) == []
  }

  /** The entry collects the remaining arguments. */
  predicate Gathers(cfg: Config, e: Entry) {
    Collectors(MainEntries(cfg)) != [] && Collectors(MainEntries(cfg))[0] == e && IsList(e)
  }

  // ----- what the variables are meant to hold

  predicate Touches(u: Use, x: Var) {
    !u.Stray? && Writes(u.e) == x
  }

  function TextOf(u: Use): string {
    if u.LongFlag? || u.ShortFlag? then "" else u.v
  }

  /** The values given for a list, in the order of the command line. */
  function Items(cfg: Config, us: seq<Use>, x: Var): seq<string> {
    if us == [] then []
    else
      var u := us[|us| - 1];
      Items(cfg, us[..|us| - 1], x) +
      if !Touches(u, x) then []
      else if u.e.arg.ArgFilenameArray? then [TextOf(u)]
      else if cfg.convert(TextOf(u)).Some? then [cfg.convert(TextOf(u)).value]
      else []
  }

  /**
   * The last use decides: a flag is the negation of its reverse bit, a number what it reads as, a text
   * its conversion, a file name the value itself, and a list all its values in order.
   */
  function Meant(cfg: Config, us: seq<Use>, x: Var, before: Value): Value {
    if us == [] then before
    else
      var u := us[|us| - 1];
      if !Touches(u, x) then Meant(cfg, us[..|us| - 1], x, before)
      else match u.e.arg
        case ArgFlag(reverse) => FlagVal(!reverse)
        case ArgInt => if cfg.readInt(TextOf(u)).Some? then IntVal(cfg.readInt(TextOf(u)).value) else NullVal
        case ArgString => if cfg.convert(TextOf(u)).Some? then TextVal(cfg.convert(TextOf(u)).value) else NullVal
        case ArgFilename => TextVal(TextOf(u))
        case ArgStringArray => ListVal(Items(cfg, us, x))
        case ArgFilenameArray => ListVal(Items(cfg, us, x))
  }

  // ----- one entry answers

  lemma AnswersMatches(e: Entry, arg: string)
    ensures AnswersLong(e, arg) <==> LongMatches(e, arg)
  {
    if LongMatches(e, arg) && |arg| > |e.long| {
      assert (e.long + "=")[..|e.long|] == e.long;
      assert arg[..|e.long| + 1] == e.long + "=";
    }
  }

  lemma FirstOfOne<T>(f: T, more: seq<T>, e: T)
    ensures [f] + more == [e] ==> f == e && more == []
  {
    if [f] + more == [e] {
      assert ([f] + more)[0] == f && |[f] + more| == 1 + |more|;
    }
  }

  lemma LongEntryMisses(cfg: Config, f: Entry, arg: string, aliased: bool, rest: seq<string>, t: Taken)
    requires t.used <= |rest| && (!LongMatches(f, arg) || (aliased && f.noAlias))
    ensures LongEntry(cfg, f, arg, aliased, rest, t) == t
  {
  }

  lemma {:induction false} LongSole(cfg: Config, entries: seq<Entry>, arg: string, aliased: bool, rest: seq<string>,
                                    t: Taken, e: Entry)
    requires t.used <= |rest| && t.status.Done?
    ensures LongAnswers(entries, arg, aliased) == [] ==> LongEntries(cfg, entries, arg, aliased, rest, t) == t
    ensures LongAnswers(entries, arg, aliased) == [e] ==>
              LongEntries(cfg, entries, arg, aliased, rest, t) == LongEntry(cfg, e, arg, aliased, rest, t)
    decreases |entries|
  {
    if entries != [] {
      var f, more := entries[0], LongAnswers(entries[1..], arg, aliased);
      AnswersMatches(f, arg);
      var t' := LongEntry(cfg, f, arg, aliased, rest, t);
      if AnswersLong(f, arg) && !(aliased && f.noAlias) {
        FirstOfOne(f, more, e);
        if t'.status.Done? {
          LongSole(cfg, entries[1..], arg, aliased, rest, t', e);
        }
      } else {
        LongEntryMisses(cfg, f, arg, aliased, rest, t);
        LongSole(cfg, entries[1..], arg, aliased, rest, t, e);
      }
    }
  }

  /** `t` is what the one entry makes of the argument; it is taken note of. */
  predicate Decided(t: Taken) {
    !t.status.Done? || t.parsed
  }

  lemma {:induction false} LongGroupsSole(cfg: Config, groups: seq<Group>, arg: string, rest: seq<string>, e: Entry)
    ensures FirstLong(groups, arg) == [] ==> LongGroups(cfg, groups, arg, rest) == NotTaken
    ensures FirstLong(groups, arg) == [e] && Decided(LongEntry(cfg, e, arg, false, rest, NotTaken)) ==>
              LongGroups(cfg, groups, arg, rest) == LongEntry(cfg, e, arg, false, rest, NotTaken)
  {
    if groups != [] {
      LongSole(cfg, groups[0].entries, arg, false, rest, NotTaken, e);
      LongGroupsSole(cfg, groups[1..], arg, rest, e);
    }
  }

  lemma LongIsSole(cfg: Config, arg: string, rest: seq<string>, e: Entry)
    requires LongOwners(cfg, arg) == [e]
    requires Decided(LongEntry(cfg, e, arg, false, rest, NotTaken))
    ensures Long(cfg, arg, rest) == LongEntry(cfg, e, arg, false, rest, NotTaken)
  {
    LongSole(cfg, MainEntries(cfg), arg, false, rest, NotTaken, e);
    LongGroupsSole(cfg, cfg.groups, arg, rest, e);
  }

  lemma {:induction false} AliasGroupsSole(cfg: Config, groups: seq<Group>, arg: string, dash: nat, rest: seq<string>,
                                           e: Entry)
    requires dash < |arg|
    ensures AliasOwners(groups, arg[..dash], arg[dash + 1..]) == [] ==>
              AliasGroups(cfg, groups, arg, dash, rest) == NotTaken
    ensures var t := LongEntry(cfg, e, arg[dash + 1..], true, rest, NotTaken);
            AliasOwners(groups, arg[..dash], arg[dash + 1..]) == [e] && Decided(t) ==>
              AliasGroups(cfg, groups, arg, dash, rest) == t
  {
    if groups != [] {
      LongSole(cfg, groups[0].entries, arg[dash + 1..], true, rest, NotTaken, e);
      AliasGroupsSole(cfg, groups[1..], arg, dash, rest, e);
    }
  }

  lemma {:induction false} DashBehind(g: string, more: string)
    requires '-' !in g
    ensures FirstDash(g + ("-" + more)) == |g| && FirstDash(g) == |g|
  {
    if g == "" {
      assert g + ("-" + more) == "-" + more;
    } else {
      assert g[0] in g && forall c :: c in g[1..] ==> c in g;
      assert (g + ("-" + more))[1..] == g[1..] + ("-" + more);
      DashBehind(g[1..], more);
    }
  }

  lemma AliasIsSole(cfg: Config, g: string, name: string, rest: seq<string>, e: Entry)
    requires '-' !in g && LongOwners(cfg, g + ("-" + name)) == [] && AliasOwners(cfg.groups, g, name) == [e]
    requires Decided(LongEntry(cfg, e, name, true, rest, NotTaken))
    ensures Long(cfg, g + ("-" + name), rest) == LongEntry(cfg, e, name, true, rest, NotTaken)
  {
    var arg := g + ("-" + name);
    DashBehind(g, name);
    assert arg[..|g|] == g && arg[|g| + 1..] == name;
    LongSole(cfg, MainEntries(cfg), arg, false, rest, NotTaken, e);
    LongGroupsSole(cfg, cfg.groups, arg, rest, e);
    AliasGroupsSole(cfg, cfg.groups, arg, |g|, rest, e);
  }

  lemma {:induction false} ShortSole(cfg: Config, entries: seq<Entry>, c: char, rest: seq<string>, took: bool, t: Taken,
                                     e: Entry)
    requires t.status.Done? && t.used <= 1 && (t.used == 1 ==> !took && rest != [])
    ensures ShortAnswers(entries, c) == [] ==> ShortEntries(cfg, entries, c, rest, took, t) == t
    ensures ShortAnswers(entries, c) == [e] ==>
              ShortEntries(cfg, entries, c, rest, took, t) == ShortEntry(cfg, e, c, rest, took, t)
    decreases |entries|
  {
    if entries != [] {
      var f, more := entries[0], ShortAnswers(entries[1..], c);
      var t' := ShortEntry(cfg, f, c, rest, took, t);
      if f.short == Some(c) {
        FirstOfOne(f, more, e);
        if t'.status.Done? {
          ShortSole(cfg, entries[1..], c, rest, took, t', e);
        }
      } else {
        ShortSole(cfg, entries[1..], c, rest, took, t, e);
      }
    }
  }

  lemma {:induction false} LetterGroupsSole(cfg: Config, groups: seq<Group>, c: char, rest: seq<string>, took: bool,
                                            e: Entry)
    ensures FirstShort(groups, c) == [] ==> LetterGroups(cfg, groups, c, rest, took) == NotTaken
    ensures FirstShort(groups, c) == [e] && Decided(ShortEntry(cfg, e, c, rest, took, NotTaken)) ==>
              LetterGroups(cfg, groups, c, rest, took) == ShortEntry(cfg, e, c, rest, took, NotTaken)
  {
    if groups != [] {
      ShortSole(cfg, groups[0].entries, c, rest, took, NotTaken, e);
      LetterGroupsSole(cfg, groups[1..], c, rest, took, e);
    }
  }

  lemma LetterIsSole(cfg: Config, c: char, rest: seq<string>, took: bool, e: Entry)
    requires ShortOwners(cfg, c) == [e]
    requires Decided(ShortEntry(cfg, e, c, rest, took, NotTaken))
    ensures Letter(cfg, c, rest, took) == ShortEntry(cfg, e, c, rest, took, NotTaken)
  {
    ShortSole(cfg, MainEntries(cfg), c, rest, took, NotTaken, e);
    LetterGroupsSole(cfg, cfg.groups, c, rest, took, e);
  }

  lemma {:induction false} CollectorIs(cfg: Config, entries: seq<Entry>, v: string)
    ensures Collectors(entries) == [] ==> CollectEntries(cfg, entries, v) == NotTaken
    ensures Collectors(entries) != [] && IsList(Collectors(entries)[0]) ==>
              CollectEntries(cfg, entries, v) == Applied(NotTaken, ArgEvent(cfg, Collectors(entries)[0], Some(v)), 0)
    ensures Collectors(entries) != [] && !IsList(Collectors(entries)[0]) ==>
              CollectEntries(cfg, entries, v) == Taken(NoErrorSet, [], 0, false)
  {
    if entries != [] {
      CollectorIs(cfg, entries[1..], v);
    }
  }

  // ----- one turn of the scan for each spelling

  /** The write an entry makes of a value it can read. */
  function WriteOf(cfg: Config, e: Entry, v: string): Event
    requires Readable(cfg, e, v)
  {
    match e.arg
    case ArgFlag(reverse) => SetFlag(e.data, !reverse)
    case ArgInt => SetScalar(e.data, IntVal(cfg.readInt(v).value))
    case ArgString => SetScalar(e.data, TextVal(cfg.convert(v).value))
    case ArgFilename => SetScalar(e.data, TextVal(v))
    case ArgStringArray => Append(e.data, cfg.convert(v).value)
    case ArgFilenameArray => Append(e.data, v)
  }

  function Write(cfg: Config, u: Use): Event
    requires !u.Stray? && Fits(cfg, u)
  {
    WriteOf(cfg, u.e, TextOf(u))
  }

  function Writes1(cfg: Config, u: Use): seq<Event>
    requires Fits(cfg, u)
  {
    if u.Stray? then [] else [Write(cfg, u)]
  }

  predicate AllFit(cfg: Config, us: seq<Use>) {
    forall u :: u in us ==> Fits(cfg, u)
  }

  function AllWrites(cfg: Config, us: seq<Use>): seq<Event>
    requires AllFit(cfg, us)
  {
    if us == [] then []
    else
      assert us[0] in us && forall u :: u in us[1..] ==> u in us;
      Writes1(cfg, us[0]) + AllWrites(cfg, us[1..])
  }

  /** The turn at `arg` makes the writes, keeps the arguments and uses `used` more. */
  predicate TurnIs(cfg: Config, arg: string, more: seq<string>, events: seq<Event>, kept: seq<string>, used: nat) {
    arg != "--" && Next(cfg, arg, more, false, false) == Turn(Done, events, kept, used, false, false)
  }

  /** The same, but what follows is looked at as well, and is not kept if it was taken. */
  predicate LaterTurnIs(cfg: Config, arg: string, more: seq<string>, events: seq<Event>, taken: bool) {
    arg != "--" && Next(cfg, arg, more, false, false) == Turn(Done, events, [], 0, false, taken)
  }

  lemma LongTurnIs(cfg: Config, name: string, more: seq<string>, t: Taken)
    requires name != "" && t == Long(cfg, name, more) && t.status.Done? && t.parsed
    ensures TurnIs(cfg, "--" + name, more, t.events, [], t.used)
  {
    var arg := "--" + name;
    assert arg[2..] == name && arg[1] == '-' && |arg| > 2;
  }

  /** What an entry makes of its name with a readable value behind `=`. */
  lemma EntryReads(cfg: Config, e: Entry, v: string, name: string, aliased: bool, more: seq<string>)
    requires name == e.long + ("=" + v) && Readable(cfg, e, v) && !(aliased && e.noAlias)
    ensures LongEntry(cfg, e, name, aliased, more, NotTaken) == Taken(Done, [WriteOf(cfg, e, v)], 0, true)
  {
    assert name[..|e.long|] == e.long && name[|e.long| + 1..] == v;
    assert [] + [WriteOf(cfg, e, v)] == [WriteOf(cfg, e, v)];
  }

  lemma LongEqTurn(cfg: Config, u: Use, more: seq<string>)
    requires u.LongEq? && Fits(cfg, u)
    ensures TurnIs(cfg, Words(u)[0], more, [Write(cfg, u)], [], 0)
  {
    var name := u.e.long + ("=" + u.v);
    EntryReads(cfg, u.e, u.v, name, false, more);
    LongIsSole(cfg, name, more, u.e);
    LongTurnIs(cfg, name, more, Taken(Done, [Write(cfg, u)], 0, true));
  }

  lemma {:induction false} OwnerTakesAlias(groups: seq<Group>, g: string, arg: string, e: Entry)
    requires e in AliasOwners(groups, g, arg)
    ensures !e.noAlias
  {
    if e in LongAnswers(groups[0].entries, arg, true) {
      AnswererTakesAlias(groups[0].entries, arg, e);
    } else {
      OwnerTakesAlias(groups[1..], g, arg, e);
    }
  }

  lemma {:induction false} AnswererTakesAlias(entries: seq<Entry>, arg: string, e: Entry)
    requires e in LongAnswers(entries, arg, true)
    ensures !e.noAlias
  {
    if e !in LongAnswers(entries[1..], arg, true) {
      assert e == entries[0];
    } else {
      AnswererTakesAlias(entries[1..], arg, e);
    }
  }

  lemma AliasEqTurn(cfg: Config, u: Use, more: seq<string>)
    requires u.AliasEq? && Fits(cfg, u)
    ensures TurnIs(cfg, Words(u)[0], more, [Write(cfg, u)], [], 0)
  {
    var name := u.e.long + ("=" + u.v);
    OwnerTakesAlias(cfg.groups, u.g, name, u.e);
    EntryReads(cfg, u.e, u.v, name, true, more);
    AliasIsSole(cfg, u.g, name, more, u.e);
    LongTurnIs(cfg, u.g + ("-" + name), more, Taken(Done, [Write(cfg, u)], 0, true));
  }

  lemma LongNextTurn(cfg: Config, u: Use, more: seq<string>)
    requires u.LongNext? && Fits(cfg, u)
    ensures TurnIs(cfg, Words(u)[0], [u.v] + more, [Write(cfg, u)], [], 1)
  {
    assert u.e.long[..|u.e.long|] == u.e.long && ([u.v] + more)[0] == u.v;
    assert [] + [Write(cfg, u)] == [Write(cfg, u)];
    LongIsSole(cfg, u.e.long, [u.v] + more, u.e);
    LongTurnIs(cfg, u.e.long, [u.v] + more, LongEntry(cfg, u.e, u.e.long, false, [u.v] + more, NotTaken));
  }

  lemma LongFlagTurn(cfg: Config, u: Use, more: seq<string>)
    requires u.LongFlag? && Fits(cfg, u)
    ensures TurnIs(cfg, Words(u)[0], more, [Write(cfg, u)], [], 0)
  {
    assert [] + [Write(cfg, u)] == [Write(cfg, u)];
    LongIsSole(cfg, u.e.long, more, u.e);
    LongTurnIs(cfg, u.e.long, more, LongEntry(cfg, u.e, u.e.long, false, more, NotTaken));
  }

  lemma ShortTurnIs(cfg: Config, c: char, more: seq<string>, e: Entry)
    requires c != '-' && ShortOwners(cfg, c) == [e]
    requires var t := ShortEntry(cfg, e, c, more, false, NotTaken); t.status.Done? && t.parsed
    ensures var t := ShortEntry(cfg, e, c, more, false, NotTaken);
            if cfg.ignoreUnknown then LaterTurnIs(cfg, "-" + [c], more, t.events, t.used == 1)
            else TurnIs(cfg, "-" + [c], more, t.events, [], t.used)
  {
    var arg := "-" + [c];
    assert arg[1..] == [c] && arg[1] == c && |arg| == 2;
    LetterIsSole(cfg, c, more, false, e);
    LettersOfOne(cfg, c, more);
  }

  lemma ShortNextTurn(cfg: Config, u: Use, more: seq<string>)
    requires u.ShortNext? && Fits(cfg, u)
    ensures if cfg.ignoreUnknown then LaterTurnIs(cfg, Words(u)[0], [u.v] + more, [Write(cfg, u)], true)
            else TurnIs(cfg, Words(u)[0], [u.v] + more, [Write(cfg, u)], [], 1)
  {
    OwnerHasName(cfg, u.c, u.e);
    assert ([u.v] + more)[0] == u.v && [] + [Write(cfg, u)] == [Write(cfg, u)];
    ShortTurnIs(cfg, u.c, [u.v] + more, u.e);
  }

  lemma ShortFlagTurn(cfg: Config, u: Use, more: seq<string>)
    requires u.ShortFlag? && Fits(cfg, u)
    ensures TurnIs(cfg, Words(u)[0], more, [Write(cfg, u)], [], 0)
  {
    OwnerHasName(cfg, u.c, u.e);
    assert [] + [Write(cfg, u)] == [Write(cfg, u)];
    ShortTurnIs(cfg, u.c, more, u.e);
  }

  lemma {:induction false} AnswererHasName(entries: seq<Entry>, c: char, e: Entry)
    requires e in ShortAnswers(entries, c)
    ensures e.short == Some(c)
  {
    if e in ShortAnswers(entries[1..], c) {
      AnswererHasName(entries[1..], c, e);
    } else {
      assert e == entries[0];
    }
  }

  lemma {:induction false} GroupHasName(groups: seq<Group>, c: char, e: Entry)
    requires e in FirstShort(groups, c)
    ensures e.short == Some(c)
  {
    if ShortAnswers(groups[0].entries, c) != [] {
      AnswererHasName(groups[0].entries, c, e);
    } else {
      GroupHasName(groups[1..], c, e);
    }
  }

  lemma OwnerHasName(cfg: Config, c: char, e: Entry)
    requires e in ShortOwners(cfg, c)
    ensures e.short == Some(c)
  {
    if ShortAnswers(MainEntries(cfg), c) != [] {
      AnswererHasName(MainEntries(cfg), c, e);
    } else {
      GroupHasName(cfg.groups, c, e);
    }
  }

  lemma RestTurn(cfg: Config, u: Use, more: seq<string>)
    requires u.Rest? && Fits(cfg, u)
    ensures TurnIs(cfg, u.v, more, [Write(cfg, u)], [], 0)
  {
    CollectorIs(cfg, MainEntries(cfg), u.v);
    assert [] + [Write(cfg, u)] == [Write(cfg, u)];
  }

  lemma StrayTurn(cfg: Config, u: Use, more: seq<string>)
    requires u.Stray? && Fits(cfg, u)
    ensures TurnIs(cfg, u.v, more, [], [u.v], 0)
  {
    if PassedBy(cfg, u.v) {
      CollectorIs(cfg, MainEntries(cfg), u.v);
    } else {
      LongIsUnknown(cfg, u.v[2..], more);
    }
  }

  lemma {:induction false} DashIsFirst(name: string)
    ensures var d := FirstDash(name); '-' !in name[..d] && (d < |name| ==> name[d] == '-')
  {
    if name != "" && name[0] != '-' {
      DashIsFirst(name[1..]);
      assert name[..FirstDash(name)] == [name[0]] + name[1..][..FirstDash(name[1..])];
    }
  }

  lemma LongIsUnknown(cfg: Config, name: string, more: seq<string>)
    requires Unanswered(cfg, name)
    ensures Long(cfg, name, more) == NotTaken
  {
    var nobody := Entry("", None, false, ArgInt, 0);
    LongSole(cfg, MainEntries(cfg), name, false, more, NotTaken, nobody);
    LongGroupsSole(cfg, cfg.groups, name, more, nobody);
    DashIsFirst(name);
    if FirstDash(name) < |name| {
      AliasGroupsSole(cfg, cfg.groups, name, FirstDash(name), more, nobody);
    }
  }

  lemma ScanTurnIs(cfg: Config, arg: string, more: seq<string>, events: seq<Event>, kept: seq<string>, used: nat)
    requires used <= |more| && TurnIs(cfg, arg, more, events, kept, used)
    ensures Scan(cfg, [arg] + more, false, false) == Prepend(events, kept, Scan(cfg, more[used..], false, false))
  {
    var all := [arg] + more;
    assert all[0] == arg && all[1..] == more && all[1 + used..] == more[used..];
  }

  /** A letter and its value when unknown options are ignored. */
  lemma ScanLater(cfg: Config, arg: string, v: string, more: seq<string>, events: seq<Event>)
    requires cfg.ignoreUnknown && PassedBy(cfg, v) && LaterTurnIs(cfg, arg, [v] + more, events, true)
    ensures Scan(cfg, [arg] + ([v] + more), false, false) == Prepend(events, [], Scan(cfg, more, false, false))
  {
    var later := [v] + more;
    var all := [arg] + later;
    assert all[0] == arg && all[1..] == later && later[0] == v && later[1..] == more;
    CollectorIs(cfg, MainEntries(cfg), v);
    FailureKeepsNothing(cfg, more, false, false);
    PrependNothing(Scan(cfg, more, false, false));
    assert Scan(cfg, later, false, true) == Scan(cfg, more, false, false);
  }

  /** The words of one use, in front of anything. */
  lemma ScanUse(cfg: Config, u: Use, more: seq<string>)
    requires Fits(cfg, u)
    ensures Scan(cfg, Words(u) + more, false, false)
            == Prepend(Writes1(cfg, u), if u.Stray? then [u.v] else [], Scan(cfg, more, false, false))
  {
    if u.LongNext? || u.ShortNext? {
      var arg, later := Words(u)[0], [u.v] + more;
      assert Words(u) + more == [arg] + later && later[1..] == more;
      if u.ShortNext? {
        ShortNextTurn(cfg, u, more);
        if cfg.ignoreUnknown { ScanLater(cfg, arg, u.v, more, [Write(cfg, u)]); }
      } else {
        LongNextTurn(cfg, u, more);
      }
      if u.LongNext? || !cfg.ignoreUnknown {
        ScanTurnIs(cfg, arg, later, [Write(cfg, u)], [], 1);
      }
    } else {
      assert Words(u) + more == [Words(u)[0]] + more && more[0..] == more;
      match u
      case LongEq(_, _) => LongEqTurn(cfg, u, more);
      case LongFlag(_) => LongFlagTurn(cfg, u, more);
      case AliasEq(_, _, _) => AliasEqTurn(cfg, u, more);
      case ShortFlag(_, _) => ShortFlagTurn(cfg, u, more);
      case Rest(_, _) => RestTurn(cfg, u, more);
      case Stray(_) => StrayTurn(cfg, u, more);
      ScanTurnIs(cfg, Words(u)[0], more, Writes1(cfg, u), if u.Stray? then [u.v] else [], 0);
    }
  }

  lemma {:induction false} ScanSpelled(cfg: Config, us: seq<Use>, more: seq<string>)
    requires AllFit(cfg, us)
    ensures Scan(cfg, Spelled(us) + more, false, false)
            == Prepend(AllWrites(cfg, us), Strays(us), Scan(cfg, more, false, false))
  {
    if us == [] {
      assert Spelled(us) + more == more;
      FailureKeepsNothing(cfg, more, false, false);
      PrependNothing(Scan(cfg, more, false, false));
    } else {
      var u, later := us[0], us[1..];
      assert u in us && forall x :: x in later ==> x in us;
      Reassociate(Words(u), Spelled(later), more);
      ScanUse(cfg, u, Spelled(later) + more);
      ScanSpelled(cfg, later, more);
      PrependTwice(Writes1(cfg, u), if u.Stray? then [u.v] else [], AllWrites(cfg, later), Strays(later),
                   Scan(cfg, more, false, false));
    }
  }

  // ----- from writes to values

  lemma {:induction false} AllWritesAppend(cfg: Config, a: seq<Use>, b: seq<Use>)
    requires AllFit(cfg, a) && AllFit(cfg, b)
    ensures AllFit(cfg, a + b) && AllWrites(cfg, a + b) == AllWrites(cfg, a) + AllWrites(cfg, b)
  {
    if a == [] {
      assert a + b == b && [] + AllWrites(cfg, b) == AllWrites(cfg, b);
    } else {
      assert a[0] in a && forall u :: u in a[1..] ==> u in a;
      assert (a + b)[1..] == a[1..] + b && (a + b)[0] == a[0];
      AllWritesAppend(cfg, a[1..], b);
      Reassociate(Writes1(cfg, a[0]), AllWrites(cfg, a[1..]), AllWrites(cfg, b));
    }
  }

  lemma AllWritesOne(cfg: Config, u: Use)
    requires Fits(cfg, u)
    ensures AllFit(cfg, [u]) && AllWrites(cfg, [u]) == Writes1(cfg, u)
  {
    assert [u][1..] == [] && Writes1(cfg, u) + [] == Writes1(cfg, u);
  }

  lemma AllWritesSnoc(cfg: Config, us: seq<Use>)
    requires us != [] && AllFit(cfg, us)
    ensures var front, u := us[..|us| - 1], us[|us| - 1];
            AllFit(cfg, front) && Fits(cfg, u) && AllWrites(cfg, us) == AllWrites(cfg, front) + Writes1(cfg, u)
  {
    var front, u := us[..|us| - 1], us[|us| - 1];
    assert u in us && forall x :: x in front ==> x in us;
    AllWritesOne(cfg, u);
    AllWritesAppend(cfg, front, [u]);
    assert front + [u] == us;
  }

  lemma WriteTarget(cfg: Config, u: Use)
    requires !u.Stray? && Fits(cfg, u)
    ensures Write(cfg, u).Target() == Writes(u.e)
  {
  }

  /** The writes to `x`, seen from the last use. */
  lemma OnSnoc(cfg: Config, us: seq<Use>, x: Var)
    requires us != [] && AllFit(cfg, us)
    ensures var front, u := us[..|us| - 1], us[|us| - 1];
            && AllFit(cfg, front) && Fits(cfg, u)
            && On(AllWrites(cfg, us), x) == On(AllWrites(cfg, front), x) + if Touches(u, x) then [Write(cfg, u)] else []
  {
    var front, u := us[..|us| - 1], us[|us| - 1];
    AllWritesSnoc(cfg, us);
    if u.Stray? {
      assert AllWrites(cfg, front) + [] == AllWrites(cfg, front);
      assert On(AllWrites(cfg, front), x) + [] == On(AllWrites(cfg, front), x);
    } else {
      WriteTarget(cfg, u);
      OnMore(AllWrites(cfg, front), Write(cfg, u), x);
    }
  }

  lemma {:induction false} ItemsAre(cfg: Config, us: seq<Use>, x: Var)
    requires AllFit(cfg, us) && x.kind.ListKind?
    ensures ItemsOf(On(AllWrites(cfg, us), x)) == Items(cfg, us, x)
  {
    if us != [] {
      var front, u := us[..|us| - 1], us[|us| - 1];
      OnSnoc(cfg, us, x);
      ItemsAre(cfg, front, x);
      if Touches(u, x) {
        ItemsGrow(On(AllWrites(cfg, front), x), Write(cfg, u));
      } else {
        assert On(AllWrites(cfg, front), x) + [] == On(AllWrites(cfg, front), x);
        assert Items(cfg, front, x) + [] == Items(cfg, front, x);
      }
    }
  }

  lemma CurrentMore(before: Value, on: seq<Event>, ev: Event)
    ensures Current(before, on + [ev]) ==
              match ev
              case SetFlag(_, b) => FlagVal(b)
              case SetScalar(_, v) => v
              case Append(_, _) => ListVal(ItemsOf(on + [ev]))
  {
  }

  lemma TouchedIsMeant(cfg: Config, us: seq<Use>, x: Var, before: Value)
    requires us != [] && AllFit(cfg, us) && Touches(us[|us| - 1], x)
    ensures Current(before, On(AllWrites(cfg, us), x)) == Meant(cfg, us, x, before)
  {
    var u := us[|us| - 1];
    OnSnoc(cfg, us, x);
    CurrentMore(before, On(AllWrites(cfg, us[..|us| - 1]), x), Write(cfg, u));
    if x.kind.ListKind? {
      ItemsAre(cfg, us, x);
    }
  }

  lemma {:induction false} CurrentIsMeant(cfg: Config, us: seq<Use>, x: Var, before: Value)
    requires AllFit(cfg, us)
    ensures Current(before, On(AllWrites(cfg, us), x)) == Meant(cfg, us, x, before)
  {
    if us != [] {
      var front, u := us[..|us| - 1], us[|us| - 1];
      if Touches(u, x) {
        TouchedIsMeant(cfg, us, x, before);
      } else {
        OnSnoc(cfg, us, x);
        assert On(AllWrites(cfg, front), x) + [] == On(AllWrites(cfg, front), x);
        CurrentIsMeant(cfg, front, x, before);
      }
    }
  }

  /** The value of a variable after a parse that began with an empty change list. */
  function After(cfg: Config, args: seq<string>, vars: map<Var, Value>, x: Var): Value {
    Lookup(Replay(Store(vars, []), Parse(cfg, args).events).vars, x)
  }

  lemma SpelledScan(cfg: Config, us: seq<Use>)
    requires AllFit(cfg, us)
    ensures Scan(cfg, Spelled(us), false, false) == Outcome(Done, AllWrites(cfg, us), Strays(us))
  {
    var none: seq<string> := [];
    ScanSpelled(cfg, us, none);
    assert Spelled(us) + none == Spelled(us);
    PrependToNothing(AllWrites(cfg, us), Strays(us));
  }

  lemma PrependToNothing(events: seq<Event>, kept: seq<string>)
    ensures Prepend(events, kept, Outcome(Done, [], [])) == Outcome(Done, events, kept)
  {
    assert events + [] == events;
    assert kept + [] == kept;
  }

  lemma SpelledParse(cfg: Config, program: string, us: seq<Use>)
    requires AllFit(cfg, us)
    ensures Parse(cfg, [program] + Spelled(us)) == Outcome(Done, AllWrites(cfg, us), [program] + Strays(us))
  {
    SpelledScan(cfg, us);
    ParseScans(cfg, program, Spelled(us));
    PrependProgram(program, AllWrites(cfg, us), Strays(us));
  }

  lemma PrependProgram(program: string, events: seq<Event>, kept: seq<string>)
    ensures Prepend([], [program], Outcome(Done, events, kept)) == Outcome(Done, events, [program] + kept)
  {
    assert [] + events == events;
  }

  /**
   * A command line of options that are unambiguous succeeds, leaves exactly its stray arguments, and
   * every variable holds what the options mean.
   */
  lemma SpelledOut(cfg: Config, program: string, us: seq<Use>, vars: map<Var, Value>, x: Var)
    requires AllFit(cfg, us)
    ensures var args := [program] + Spelled(us);
            && Parse(cfg, args).status == Done && Parse(cfg, args).kept == [program] + Strays(us)
            && After(cfg, args, vars, x) == Meant(cfg, us, x, Lookup(vars, x))
  {
    SpelledParse(cfg, program, us);
    ReplayTracks(vars, AllWrites(cfg, us), x);
    CurrentIsMeant(cfg, us, x, Lookup(vars, x));
  }

  lemma OneUse(cfg: Config, program: string, u: Use, vars: map<Var, Value>)
    requires Fits(cfg, u) && !u.Stray?
    ensures Parse(cfg, [program] + Words(u)).status == Done && Parse(cfg, [program] + Words(u)).kept == [program]
    ensures var x := Writes(u.e);
            After(cfg, [program] + Words(u), vars, x) == Meant(cfg, [u], x, Lookup(vars, x))
  {
    var us, x := [u], Writes(u.e);
    assert us[1..] == [] && Spelled(us) == Words(u) + [] == Words(u);
    SpelledOut(cfg, program, us, vars, x);
    assert [program] + Strays(us) == [program];
  }

  lemma OneItem(cfg: Config, u: Use)
    requires Fits(cfg, u) && !u.Stray? && IsList(u.e)
    ensures Items(cfg, [u], Writes(u.e)) == [Write(cfg, u).item]
  {
    var none: seq<Use> := [];
    assert [u][..|[u]| - 1] == none && Items(cfg, none, Writes(u.e)) == [];
  }

  /** One option, in whichever spelling, and what its variable holds then. */
  lemma OneValue(cfg: Config, program: string, u: Use, vars: map<Var, Value>)
    requires Fits(cfg, u) && !u.Stray?
    ensures Parse(cfg, [program] + Words(u)).status == Done && Parse(cfg, [program] + Words(u)).kept == [program]
    ensures var stored := After(cfg, [program] + Words(u), vars, Writes(u.e));
            match u.e.arg
            case ArgFlag(reverse) => stored == FlagVal(!reverse)
            case ArgInt => stored == IntVal(cfg.readInt(u.v).value)
            case ArgString => stored == TextVal(cfg.convert(u.v).value)
            case ArgFilename => stored == TextVal(u.v)
            case ArgStringArray => stored == ListVal([cfg.convert(u.v).value])
            case ArgFilenameArray => stored == ListVal([u.v])
  {
    OneUse(cfg, program, u, vars);
    if IsList(u.e) {
      OneItem(cfg, u);
    }
  }

  lemma {:induction false} LongBoth(cfg: Config, entries: seq<Entry>, arg: string, rest: seq<string>, t: Taken,
                                    e: Entry, f: Entry)
    requires t.used <= |rest| && t.status.Done? && LongAnswers(entries, arg, false) == [e, f]
    requires LongEntry(cfg, e, arg, false, rest, t).status.Done?
    ensures LongEntries(cfg, entries, arg, false, rest, t)
            == LongEntry(cfg, f, arg, false, rest, LongEntry(cfg, e, arg, false, rest, t))
    decreases |entries|
  {
    var first := entries[0];
    AnswersMatches(first, arg);
    if AnswersLong(first, arg) {
      assert ([first] + LongAnswers(entries[1..], arg, false))[1..] == LongAnswers(entries[1..], arg, false);
      assert [e, f][0] == e && [e, f][1..] == [f];
      LongSole(cfg, entries[1..], arg, false, rest, LongEntry(cfg, e, arg, false, rest, t), f);
    } else {
      LongEntryMisses(cfg, first, arg, false, rest, t);
      LongBoth(cfg, entries[1..], arg, rest, t, e, f);
    }
  }

  lemma {:induction false} LongGroupsBoth(cfg: Config, groups: seq<Group>, arg: string, rest: seq<string>, e: Entry,
                                          f: Entry)
    requires FirstLong(groups, arg) == [e, f]
    requires var t := LongEntry(cfg, e, arg, false, rest, NotTaken);
             t.status.Done? && Decided(LongEntry(cfg, f, arg, false, rest, t))
    ensures LongGroups(cfg, groups, arg, rest)
            == LongEntry(cfg, f, arg, false, rest, LongEntry(cfg, e, arg, false, rest, NotTaken))
  {
    if LongAnswers(groups[0].entries, arg, false) != [] {
      LongBoth(cfg, groups[0].entries, arg, rest, NotTaken, e, f);
    } else {
      LongSole(cfg, groups[0].entries, arg, false, rest, NotTaken, e);
      LongGroupsBoth(cfg, groups[1..], arg, rest, e, f);
    }
  }

  lemma SecondReads(cfg: Config, f: Entry, v: string, name: string, rest: seq<string>, first: Event)
    requires name == f.long + ("=" + v) && Readable(cfg, f, v)
    ensures LongEntry(cfg, f, name, false, rest, Taken(Done, [first], 0, true))
            == Taken(Done, [first, WriteOf(cfg, f, v)], 0, true)
  {
    assert name[..|f.long|] == f.long && name[|f.long| + 1..] == v;
    assert [first] + [WriteOf(cfg, f, v)] == [first, WriteOf(cfg, f, v)];
  }

  lemma LongIsBoth(cfg: Config, e: Entry, f: Entry, v: string, name: string, rest: seq<string>)
    requires name == e.long + ("=" + v) && f.long == e.long && LongOwners(cfg, name) == [e, f]
    requires Readable(cfg, e, v) && Readable(cfg, f, v)
    ensures Long(cfg, name, rest) == Taken(Done, [WriteOf(cfg, e, v), WriteOf(cfg, f, v)], 0, true)
  {
    EntryReads(cfg, e, v, name, false, rest);
    SecondReads(cfg, f, v, name, rest, WriteOf(cfg, e, v));
    if LongAnswers(MainEntries(cfg), name, false) != [] {
      LongBoth(cfg, MainEntries(cfg), name, rest, NotTaken, e, f);
    } else {
      LongSole(cfg, MainEntries(cfg), name, false, rest, NotTaken, e);
      LongGroupsBoth(cfg, cfg.groups, name, rest, e, f);
    }
  }

  lemma ParseBoth(cfg: Config, program: string, e: Entry, f: Entry, v: string, name: string)
    requires name == e.long + ("=" + v) && f.long == e.long != "" && LongOwners(cfg, name) == [e, f]
    requires Readable(cfg, e, v) && Readable(cfg, f, v)
    ensures Parse(cfg, [program, "--" + name]) == Outcome(Done, [WriteOf(cfg, e, v), WriteOf(cfg, f, v)], [program])
  {
    var none: seq<string> := [];
    var arg, writes := "--" + name, [WriteOf(cfg, e, v), WriteOf(cfg, f, v)];
    LongIsBoth(cfg, e, f, v, name, none);
    LongTurnIs(cfg, name, none, Long(cfg, name, none));
    ScanTurnIs(cfg, arg, none, writes, [], 0);
    assert [arg] + none == [arg] && writes + [] == writes && [program] + [arg] == [program, arg];
    assert Scan(cfg, [arg], false, false) == Outcome(Done, writes, none);
    ParseScans(cfg, program, [arg]);
  }

  lemma OnPair(ev: Event, fv: Event, x: Var)
    ensures On([ev, fv], x) == (if ev.Target() == x then [ev] else []) + if fv.Target() == x then [fv] else []
  {
    assert [ev, fv] == [ev] + [fv];
    OnMore([ev], fv, x);
    OnOne(ev, x);
  }

  lemma OneOfTwoHolds(vars: map<Var, Value>, ev: Event, fv: Event, w: Event)
    requires ev.SetScalar? && fv.SetScalar? && ev.id != fv.id && w in {ev, fv}
    ensures Lookup(Replay(Store(vars, []), [ev, fv]).vars, w.Target()) == w.v
  {
    var x := w.Target();
    ReplayTracks(vars, [ev, fv], x);
    OnPair(ev, fv, x);
    assert On([ev, fv], x) == [w];
  }

  /** The search does not stop at an entry that answers: two of one group are both written. */
  lemma BothAnswer(cfg: Config, program: string, e: Entry, f: Entry, v: string, vars: map<Var, Value>)
    requires f.long == e.long != "" && LongOwners(cfg, e.long + ("=" + v)) == [e, f]
    requires e.arg.ArgFilename? && f.arg.ArgFilename? && e.data != f.data
    ensures var args := [program, "--" + (e.long + ("=" + v))];
            && Parse(cfg, args).status == Done && Parse(cfg, args).kept == [program]
            && After(cfg, args, vars, Var(ScalarKind, e.data)) == TextVal(v)
            && After(cfg, args, vars, Var(ScalarKind, f.data)) == TextVal(v)
  {
    var ev, fv := WriteOf(cfg, e, v), WriteOf(cfg, f, v);
    ParseBoth(cfg, program, e, f, v, e.long + ("=" + v));
    OneOfTwoHolds(vars, ev, fv, ev);
    OneOfTwoHolds(vars, ev, fv, fv);
  }

  // ----- behind the separator

  predicate AllReadable(cfg: Config, e: Entry, tail: seq<string>) {
    forall v :: v in tail ==> Readable(cfg, e, v)
  }

  lemma PartsReadable(cfg: Config, e: Entry, tail: seq<string>)
    requires AllReadable(cfg, e, tail) && tail != []
    ensures Readable(cfg, e, tail[0]) && AllReadable(cfg, e, tail[1..])
    ensures Readable(cfg, e, tail[|tail| - 1]) && AllReadable(cfg, e, tail[..|tail| - 1])
  {
    assert tail[0] in tail && tail[|tail| - 1] in tail;
    assert forall v :: v in tail[1..] || v in tail[..|tail| - 1] ==> v in tail;
  }

  function AllGathered(cfg: Config, e: Entry, tail: seq<string>): seq<Event>
    requires IsList(e) && AllReadable(cfg, e, tail)
  {
    if tail == [] then []
    else
      PartsReadable(cfg, e, tail);
      [WriteOf(cfg, e, tail[0])] + AllGathered(cfg, e, tail[1..])
  }

  lemma {:induction false} AfterSeparatorGathers(cfg: Config, e: Entry, tail: seq<string>, unknown: bool)
    requires Gathers(cfg, e) && AllReadable(cfg, e, tail)
    ensures AfterSeparator(cfg, tail, unknown) == Tail(Done, AllGathered(cfg, e, tail), [], false)
  {
    if tail != [] {
      var v, later := tail[0], tail[1..];
      PartsReadable(cfg, e, tail);
      CollectIs(cfg, e, v);
      AfterSeparatorGathers(cfg, e, later, unknown);
      AfterCollected(cfg, v, later, WriteOf(cfg, e, v), unknown);
      assert [v] + later == tail;
    }
  }

  lemma CollectIs(cfg: Config, e: Entry, v: string)
    requires Gathers(cfg, e) && Readable(cfg, e, v)
    ensures Collect(cfg, v) == Taken(Done, [WriteOf(cfg, e, v)], 0, true)
  {
    CollectorIs(cfg, MainEntries(cfg), v);
    assert [] + [WriteOf(cfg, e, v)] == [WriteOf(cfg, e, v)];
  }

  lemma AfterCollected(cfg: Config, v: string, later: seq<string>, ev: Event, unknown: bool)
    requires Collect(cfg, v) == Taken(Done, [ev], 0, true)
    requires var r := AfterSeparator(cfg, later, unknown); r.status.Done? && r.kept == [] && !r.blocked
    ensures AfterSeparator(cfg, [v] + later, unknown)
            == Tail(Done, [ev] + AfterSeparator(cfg, later, unknown).events, [], false)
  {
    var all, none: seq<string> := [v] + later, [];
    assert all[0] == v && all[1..] == later && none + none == none;
  }

  /** What the list holds, if it was not touched before the separator. */
  function Texts(cfg: Config, e: Entry, tail: seq<string>): seq<string> {
    if tail == [] then []
    else Texts(cfg, e, tail[..|tail| - 1]) +
         if e.arg.ArgFilenameArray? then [tail[|tail| - 1]]
         else if cfg.convert(tail[|tail| - 1]).Some? then [cfg.convert(tail[|tail| - 1]).value]
         else []
  }

  lemma {:induction false} AllGatheredSnoc(cfg: Config, e: Entry, tail: seq<string>, v: string)
    requires IsList(e) && AllReadable(cfg, e, tail) && Readable(cfg, e, v)
    ensures AllReadable(cfg, e, tail + [v])
    ensures AllGathered(cfg, e, tail + [v]) == AllGathered(cfg, e, tail) + [WriteOf(cfg, e, v)]
  {
    if tail == [] {
      assert tail + [v] == [v] && [v][1..] == [];
    } else {
      PartsReadable(cfg, e, tail);
      assert (tail + [v])[0] == tail[0] && (tail + [v])[1..] == tail[1..] + [v];
      AllGatheredSnoc(cfg, e, tail[1..], v);
      Reassociate([WriteOf(cfg, e, tail[0])], AllGathered(cfg, e, tail[1..]), [WriteOf(cfg, e, v)]);
    }
  }

  lemma TextsMore(cfg: Config, e: Entry, tail: seq<string>, v: string)
    requires IsList(e) && Readable(cfg, e, v)
    ensures Texts(cfg, e, tail + [v]) == Texts(cfg, e, tail) + [WriteOf(cfg, e, v).item]
  {
    assert (tail + [v])[..|tail + [v]| - 1] == tail;
  }

  /** The writes behind the separator are all to the one list. */
  lemma {:induction false} GatheredTargets(cfg: Config, e: Entry, tail: seq<string>)
    requires IsList(e) && AllReadable(cfg, e, tail)
    ensures |AllGathered(cfg, e, tail)| == |tail|
    ensures forall ev :: ev in AllGathered(cfg, e, tail) ==> ev.Append? && ev.Target() == Var(ListKind, e.data)
  {
    if tail != [] {
      PartsReadable(cfg, e, tail);
      GatheredTargets(cfg, e, tail[1..]);
    }
  }

  lemma {:induction false} AllOn(events: seq<Event>, x: Var)
    requires forall ev :: ev in events ==> ev.Target() == x
    ensures On(events, x) == events
  {
    if events != [] {
      AllOn(events[..|events| - 1], x);
      assert events == events[..|events| - 1] + [events[|events| - 1]];
    }
  }

  lemma {:induction false} GatheredItems(cfg: Config, e: Entry, tail: seq<string>)
    requires IsList(e) && AllReadable(cfg, e, tail)
    ensures ItemsOf(AllGathered(cfg, e, tail)) == Texts(cfg, e, tail)
  {
    if tail != [] {
      var front, v := tail[..|tail| - 1], tail[|tail| - 1];
      assert front + [v] == tail;
      PartsReadable(cfg, e, tail);
      GatheredItems(cfg, e, front);
      AllGatheredSnoc(cfg, e, front, v);
      TextsMore(cfg, e, front, v);
      ItemsGrow(AllGathered(cfg, e, front), WriteOf(cfg, e, v));
    }
  }

  lemma SeparatorParse(cfg: Config, program: string, e: Entry, tail: seq<string>)
    requires Gathers(cfg, e) && AllReadable(cfg, e, tail)
    ensures Parse(cfg, [program] + (["--"] + tail)) == Outcome(Done, AllGathered(cfg, e, tail), [program])
  {
    var writes, rest := AllGathered(cfg, e, tail), ["--"] + tail;
    AfterSeparatorGathers(cfg, e, tail, false);
    assert rest[1..] == tail && [program] + [] == [program];
    PrependProgram(program, writes, []);
    ParseScans(cfg, program, rest);
  }

  /** With a remaining-args entry everything behind `--` goes into its list, in order, and `--` is removed. */
  lemma SeparatorCollects(cfg: Config, program: string, e: Entry, tail: seq<string>, vars: map<Var, Value>)
    requires Gathers(cfg, e) && tail != [] && AllReadable(cfg, e, tail)
    ensures var args := [program] + (["--"] + tail);
            && Parse(cfg, args).status == Done && Parse(cfg, args).kept == [program]
            && After(cfg, args, vars, Var(ListKind, e.data)) == ListVal(Texts(cfg, e, tail))
  {
    var writes, x := AllGathered(cfg, e, tail), Var(ListKind, e.data);
    SeparatorParse(cfg, program, e, tail);
    GatheredTargets(cfg, e, tail);
    AllOn(writes, x);
    GatheredItems(cfg, e, tail);
    ReplayTracks(vars, writes, x);
    assert writes[|writes| - 1] in writes;
  }

  /**
   * Where nothing collects, `--` stays in front of an argument with a dash and is removed in front of any
   * other one.
   */
  lemma SeparatorStays(cfg: Config, program: string, v: string)
    requires Collectors(MainEntries(cfg)) == []
    ensures Parse(cfg, [program, "--", v])
            == Outcome(Done, [], if v != "" && v[0] == '-' then [program, "--", v] else [program, v])
  {
    var rest, none: seq<string> := ["--", v], [];
    CollectorIs(cfg, MainEntries(cfg), v);
    assert rest[1..] == [v] && [v][1..] == none && [program] + rest == [program, "--", v];
    assert AfterSeparator(cfg, none, false) == Tail(Done, [], none, false);
    assert [v] + none == [v] && ["--"] + [v] == rest && [program] + [v] == [program, v];
    ParseScans(cfg, program, rest);
  }

  // ----- command lines that end in an error

  /** A turn that ends the scan. */
  lemma ScanEndsAt(cfg: Config, us: seq<Use>, bad: seq<string>, status: Status)
    requires AllFit(cfg, us) && bad != [] && bad[0] != "--" && !status.Done?
    requires Next(cfg, bad[0], bad[1..], false, false).status == status
    ensures forall program :: Parse(cfg, [program] + (Spelled(us) + bad)).status == status
  {
    ScanSpelled(cfg, us, bad);
    forall program ensures Parse(cfg, [program] + (Spelled(us) + bad)).status == status {
      ParseScans(cfg, program, Spelled(us) + bad);
    }
  }

  /** The last option misses its value, in the long or the short spelling. */
  lemma MissingValue(cfg: Config, program: string, us: seq<Use>, u: Use)
    requires AllFit(cfg, us) && Fits(cfg, u) && (u.LongNext? || u.ShortNext?)
    ensures Parse(cfg, [program] + (Spelled(us) + [Words(u)[0]])).status == BadValue
  {
    var arg, e := Words(u)[0], u.e;
    var none: seq<string> := [];
    assert [arg][1..] == none;
    if u.LongNext? {
      assert arg[2..] == e.long && arg[1] == '-' && |arg| > 2;
      LongIsSole(cfg, e.long, [], e);
    } else {
      assert arg[1..] == [u.c] && arg[1] == u.c && |arg| == 2;
      OwnerHasName(cfg, u.c, e);
      LetterIsSole(cfg, u.c, [], false, e);
    }
    ScanEndsAt(cfg, us, [arg], BadValue);
  }

  /** A number that is none, or a text that cannot be converted, behind `=`. */
  lemma UnreadableValue(cfg: Config, program: string, us: seq<Use>, e: Entry, v: string, more: seq<string>)
    requires AllFit(cfg, us) && e.long != ""
    requires LongOwners(cfg, e.long + ("=" + v)) == [e] && !Readable(cfg, e, v)
    ensures Parse(cfg, [program] + (Spelled(us) + (["--" + (e.long + ("=" + v))] + more))).status
            == if e.arg.ArgInt? then BadValue else ConversionError
  {
    var name := e.long + ("=" + v);
    var bad, status := ["--" + name] + more, if e.arg.ArgInt? then BadValue else ConversionError;
    assert bad[1..] == more;
    EntryRefuses(cfg, e, v, name, more);
    LongIsSole(cfg, name, more, e);
    LongFails(cfg, name, more, status);
    ScanEndsAt(cfg, us, bad, status);
  }

  lemma EntryRefuses(cfg: Config, e: Entry, v: string, name: string, more: seq<string>)
    requires name == e.long + ("=" + v) && !Readable(cfg, e, v)
    ensures LongEntry(cfg, e, name, false, more, NotTaken).status
            == if e.arg.ArgInt? then BadValue else ConversionError
  {
    assert name[..|e.long|] == e.long && name[|e.long| + 1..] == v;
  }

  lemma LongFails(cfg: Config, name: string, more: seq<string>, status: Status)
    requires name != "" && Long(cfg, name, more).status == status && !status.Done?
    ensures "--" + name != "--" && Next(cfg, "--" + name, more, false, false).status == status
  {
    var arg := "--" + name;
    assert arg[2..] == name && arg[1] == '-' && |arg| > 2;
  }

  /** An argument to collect when the first entry for it is no list, or cannot convert it. */
  lemma UncollectedArgument(cfg: Config, program: string, us: seq<Use>, v: string, more: seq<string>)
    requires AllFit(cfg, us) && LooksPlain(v) && Collectors(MainEntries(cfg)) != []
    requires var e := Collectors(MainEntries(cfg))[0]; !IsList(e) || !Readable(cfg, e, v)
    ensures Parse(cfg, [program] + (Spelled(us) + ([v] + more))).status
            == if IsList(Collectors(MainEntries(cfg))[0]) then ConversionError else NoErrorSet
  {
    CollectorIs(cfg, MainEntries(cfg), v);
    assert ([v] + more)[1..] == more;
    ScanEndsAt(cfg, us, [v] + more, if IsList(Collectors(MainEntries(cfg))[0]) then ConversionError else NoErrorSet);
  }

  /** A long option nobody answers to. */
  lemma UnknownLong(cfg: Config, program: string, us: seq<Use>, name: string, more: seq<string>)
    requires !cfg.ignoreUnknown && AllFit(cfg, us) && name != "" && Unanswered(cfg, name)
    ensures Parse(cfg, [program] + (Spelled(us) + (["--" + name] + more))).status == UnknownOption
  {
    var arg, bad := "--" + name, ["--" + name] + more;
    assert arg[2..] == name && arg[1] == '-' && |arg| > 2 && bad[1..] == more;
    LongIsUnknown(cfg, name, more);
    ScanEndsAt(cfg, us, bad, UnknownOption);
  }

  /** A letter nobody has. */
  lemma UnknownLetter(cfg: Config, program: string, us: seq<Use>, c: char, more: seq<string>)
    requires !cfg.ignoreUnknown && AllFit(cfg, us) && c != '-' && ShortOwners(cfg, c) == []
    ensures Parse(cfg, [program] + (Spelled(us) + (["-" + [c]] + more))).status == UnknownOption
  {
    var arg, bad, nobody := "-" + [c], ["-" + [c]] + more, Entry("", None, false, ArgInt, 0);
    assert arg[1..] == [c] && arg[1] == c && |arg| == 2 && bad[1..] == more;
    ShortSole(cfg, MainEntries(cfg), c, more, false, NotTaken, nobody);
    LetterGroupsSole(cfg, cfg.groups, c, more, false, nobody);
    ScanEndsAt(cfg, us, bad, UnknownOption);
  }

  /** Two letters of one cluster that both want a value. */
  lemma TwoValues(cfg: Config, program: string, us: seq<Use>, u: Use, w: Use)
    requires AllFit(cfg, us) && Fits(cfg, u) && Fits(cfg, w) && u.ShortNext? && w.ShortNext?
    ensures Parse(cfg, [program] + (Spelled(us) + ["-" + [u.c, w.c], u.v])).status == Failed
  {
    var arg, bad := "-" + [u.c, w.c], ["-" + [u.c, w.c], u.v];
    assert arg[1..] == [u.c, w.c] && arg[1] == u.c && |arg| == 3 && bad[1..] == [u.v];
    OwnerHasName(cfg, u.c, u.e);
    OwnerHasName(cfg, w.c, w.e);
    LetterIsSole(cfg, u.c, [u.v], false, u.e);
    LetterIsSole(cfg, w.c, [u.v], true, w.e);
    assert [u.c, w.c][1..] == [w.c] && [w.c][0] == w.c;
    assert Letter(cfg, u.c, [u.v], false).used == 1;
    assert Letters(cfg, [w.c], [u.v], true, true).status == Failed;
    assert Letters(cfg, [u.c, w.c], [u.v], false, false).status == Failed;
    ScanEndsAt(cfg, us, bad, Failed);
  }
}
