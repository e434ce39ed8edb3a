/**
 * What g_option_context_parse decides, as functions of the argument list
 * (Lab/sofsip-cli-0.16/src/replace_goption.c).
 *
 * The scan never looks at an option variable, so it can be described by the writes it asks
 * for (`events`) and the arguments it leaves behind (`kept`). Every function works on the
 * arguments still ahead of the scan; indices into argv appear only in the class that
 * implements the parser (OptionContext.dfy).
 */
module OptionModel {
  import opened Common

  datatype ArgType =
    | ArgFlag(reverse: bool)
    | ArgInt
    | ArgString
    | ArgFilename
    | ArgStringArray
    | ArgFilenameArray

  /** `data` names the storage behind arg_data; see `Var`. */
  datatype Entry = Entry(long: string, short: Option<char>, noAlias: bool, arg: ArgType, data: nat)

  datatype Group = Group(name: string, entries: seq<Entry>)

  /** `convert` and `readInt` stand for g_locale_to_utf8 and parse_int: any functions will do. */
  datatype Config = Config(
    main: Option<Group>,
    groups: seq<Group>,
    ignoreUnknown: bool,
    convert: string -> Option<string>,
    readInt: string -> Option<int>)

  /** NoErrorSet: g_return_val_if_fail returns FALSE without filling in a GError. */
  datatype Status = Done | BadValue | Failed | UnknownOption | ConversionError | NoErrorSet

  // ----- option variables and the writes made to them

  datatype Kind = FlagKind | ScalarKind | ListKind

  /** A variable is named together with its C type, so storage is never shared across types. */
  datatype Var = Var(kind: Kind, id: nat)

  datatype Value =
    | NullVal
    | FlagVal(b: bool)
    | IntVal(n: int)
    | TextVal(s: string)
    | ListVal(items: seq<string>)

  datatype Event =
    | SetFlag(id: nat, b: bool)
    | SetScalar(id: nat, v: Value)
    | Append(id: nat, item: string)
  {
    function Target(): Var {
      match this
      case SetFlag(id, _) => Var(FlagKind, id)
      case SetScalar(id, _) => Var(ScalarKind, id)
      case Append(id, _) => Var(ListKind, id)
    }
  }

  datatype ArgResult = Write(event: Event) | Reject(status: Status)

  /** The write parse_arg performs for one entry and value, or why it refuses. */
  function ArgEvent(cfg: Config, e: Entry, value: Option<string>): ArgResult
    requires e.arg.ArgFlag? || value.Some?
  {
    match e.arg
    case ArgFlag(reverse) => Write(SetFlag(e.data, !reverse))
    case ArgInt =>
      var n := cfg.readInt(value.value);
      if n.None? then Reject(BadValue) else Write(SetScalar(e.data, IntVal(n.value)))
    case ArgString =>
      var s := cfg.convert(value.value);
      if s.None? then Reject(ConversionError) else Write(SetScalar(e.data, TextVal(s.value)))
    case ArgFilename => Write(SetScalar(e.data, TextVal(value.value)))
    case ArgStringArray =>
      var s := cfg.convert(value.value);
      if s.None? then Reject(ConversionError) else Write(Append(e.data, s.value))
    case ArgFilenameArray => Write(Append(e.data, value.value))
  }

  // ----- trying entries against one argument

  /** `used` counts the following arguments taken as values. */
  datatype Taken = Taken(status: Status, events: seq<Event>, used: nat, parsed: bool)

  const NotTaken := Taken(Done, [], 0, false)

  /** `t` after one more entry was applied or refused, using `used` more arguments. */
  function Applied(t: Taken, r: ArgResult, used: nat): Taken {
    match r
    case Write(ev) => Taken(Done, t.events + [ev], t.used + used, true)
    case Reject(status) => Taken(status, t.events, t.used + used, t.parsed)
  }

  predicate LongMatches(e: Entry, arg: string) {
    e.long <= arg && (|arg| == |e.long| || arg[|e.long|] == '=')
  }

  /** One pass of parse_long_option's loop body: `e` meets `--arg`, rest[t.used] is the next free argument. */
  function LongEntry(cfg: Config, e: Entry, arg: string, aliased: bool, rest: seq<string>, t: Taken): (t': Taken)
    requires t.used <= |rest|
    ensures t.used <= t'.used <= |rest|
  {
    if aliased && e.noAlias then t
    else if e.arg.ArgFlag? && arg == e.long then Applied(t, ArgEvent(cfg, e, None), 0)
    else if LongMatches(e, arg) then
      if |arg| > |e.long| then Applied(t, ArgEvent(cfg, e, Some(arg[|e.long| + 1..])), 0)
      else if t.used == |rest| then t.(status := BadValue)
      else Applied(t, ArgEvent(cfg, e, Some(rest[t.used])), 1)
    else t
  }

  /** parse_long_option: the loop does not stop at a match, so duplicates apply one after another. */
  function LongEntries(cfg: Config, entries: seq<Entry>, arg: string, aliased: bool, rest: seq<string>,
                       t: Taken): (t': Taken)
    requires t.used <= |rest|
    ensures t.used <= t'.used <= |rest|
  {
    if entries == [] || !t.status.Done? then t
    else LongEntries(cfg, entries[1..], arg, aliased, rest, LongEntry(cfg, entries[0], arg, aliased, rest, t))
  }

  function LongGroups(cfg: Config, groups: seq<Group>, arg: string, rest: seq<string>): (t: Taken)
    ensures t.used <= |rest|
  {
    if groups == [] then NotTaken
    else
      var t := LongEntries(cfg, groups[0].entries, arg, false, rest, NotTaken);
      if !t.status.Done? || t.parsed then t else LongGroups(cfg, groups[1..], arg, rest)
  }

  /** Position of the first dash, or |arg|. */
  function FirstDash(arg: string): (d: nat)
    ensures d <= |arg|
  {
    if arg == [] || arg[0] == '-' then 0 else 1 + FirstDash(arg[1..])
  }

  /** --<group>-<option>: only as much of the group name as stands before the dash is compared. */
  function AliasGroups(cfg: Config, groups: seq<Group>, arg: string, dash: nat, rest: seq<string>): (t: Taken)
    requires dash < |arg|
    ensures t.used <= |rest|
  {
    if groups == [] then NotTaken
    else if arg[..dash] <= groups[0].name then
      var t := LongEntries(cfg, groups[0].entries, arg[dash + 1..], true, rest, NotTaken);
      if !t.status.Done? || t.parsed then t else AliasGroups(cfg, groups[1..], arg, dash, rest)
    else AliasGroups(cfg, groups[1..], arg, dash, rest)
  }

  function MainEntries(cfg: Config): seq<Entry> {
    if cfg.main.None? then [] else cfg.main.value.entries
  }

  function Long(cfg: Config, arg: string, rest: seq<string>): (t: Taken)
    ensures t.used <= |rest|
  {
    var m := LongEntries(cfg, MainEntries(cfg), arg, false, rest, NotTaken);
    if !m.status.Done? || m.parsed then m
    else
      var g := LongGroups(cfg, cfg.groups, arg, rest);
      if !g.status.Done? || g.parsed then g
      else if FirstDash(arg) < |arg| then AliasGroups(cfg, cfg.groups, arg, FirstDash(arg), rest)
      else NotTaken
  }

  /** parse_short_option's loop body; `took`: an earlier letter of the cluster used the next argument. */
  function ShortEntry(cfg: Config, e: Entry, letter: char, rest: seq<string>, took: bool, t: Taken): (t': Taken)
    requires t.used <= 1 && (t.used == 1 ==> !took && rest != [])
    ensures t.used <= t'.used <= 1 && (t'.used == 1 ==> !took && rest != [])
  {
    if e.short != Some(letter) then t
    else if e.arg.ArgFlag? then Applied(t, ArgEvent(cfg, e, None), 0)
    else if took || t.used == 1 then t.(status := Failed)
    else if rest == [] then t.(status := BadValue)
    else Applied(t, ArgEvent(cfg, e, Some(rest[0])), 1)
  }

  function ShortEntries(cfg: Config, entries: seq<Entry>, letter: char, rest: seq<string>, took: bool,
                        t: Taken): (t': Taken)
    requires t.used <= 1 && (t.used == 1 ==> !took && rest != [])
    ensures t.used <= t'.used <= 1 && (t'.used == 1 ==> !took && rest != [])
  {
    if entries == [] || !t.status.Done? then t
    else ShortEntries(cfg, entries[1..], letter, rest, took, ShortEntry(cfg, entries[0], letter, rest, took, t))
  }

  function LetterGroups(cfg: Config, groups: seq<Group>, letter: char, rest: seq<string>, took: bool): (t: Taken)
    ensures t.used <= 1 && (t.used == 1 ==> !took && rest != [])
  {
    if groups == [] then NotTaken
    else
      var t := ShortEntries(cfg, groups[0].entries, letter, rest, took, NotTaken);
      if !t.status.Done? || t.parsed then t else LetterGroups(cfg, groups[1..], letter, rest, took)
  }

  function Letter(cfg: Config, letter: char, rest: seq<string>, took: bool): (t: Taken)
    ensures t.used <= 1 && (t.used == 1 ==> !took && rest != [])
  {
    var m := ShortEntries(cfg, MainEntries(cfg), letter, rest, took, NotTaken);
    if !m.status.Done? || m.parsed then m else LetterGroups(cfg, cfg.groups, letter, rest, took)
  }

  /** `parsed` is the flag as the last letter left it; `unknown` the letters no entry claimed. */
  datatype Cluster = Cluster(status: Status, events: seq<Event>, took: bool, unknown: string, parsed: bool)

  function Letters(cfg: Config, letters: string, rest: seq<string>, took: bool, parsed: bool): (c: Cluster)
    ensures c.took && !took ==> rest != []
    ensures took && c.status.Done? ==> c.took
    ensures c.status.Done? && !cfg.ignoreUnknown ==> c.unknown == []
    ensures |c.unknown| <= |letters|
  {
    if letters == [] then Cluster(Done, [], took, [], parsed)
    else
      var t := Letter(cfg, letters[0], rest, took);
      if !t.status.Done? then Cluster(t.status, t.events, took, [], false)
      else if t.parsed then
        var c := Letters(cfg, letters[1..], rest, took || t.used == 1, true);
        c.(events := t.events + c.events)
      else if cfg.ignoreUnknown then
        var c := Letters(cfg, letters[1..], rest, took, false);
        c.(unknown := [letters[0]] + c.unknown)
      else Cluster(UnknownOption, [], took, [], false)
  }

  /** parse_remaining_arg: the first entry with an empty long name collects the argument. */
  function CollectEntries(cfg: Config, entries: seq<Entry>, arg: string): (t: Taken)
    ensures t.status.Done? && !t.parsed ==> t == NotTaken
  {
    if entries == [] then NotTaken
    else if entries[0].long != [] then CollectEntries(cfg, entries[1..], arg)
    else if !entries[0].arg.ArgStringArray? && !entries[0].arg.ArgFilenameArray? then Taken(NoErrorSet, [], 0, false)
    else Applied(NotTaken, ArgEvent(cfg, entries[0], Some(arg)), 0)
  }

  function Collect(cfg: Config, arg: string): (t: Taken)
    ensures t.status.Done? && !t.parsed ==> t == NotTaken
  {
    CollectEntries(cfg, MainEntries(cfg), arg)
  }

  // ----- the scan

  datatype Outcome = Outcome(status: Status, events: seq<Event>, kept: seq<string>)

  function Prepend(events: seq<Event>, kept: seq<string>, o: Outcome): Outcome {
    Outcome(o.status, events + o.events, if o.status.Done? then kept + o.kept else [])
  }

  predicate Dashed(arg: string) {
    arg != [] && arg[0] == '-'
  }

  predicate IsOption(arg: string) {
    Dashed(arg) && |arg| > 1
  }

  /** What follows `--`; `blocked`: some argument makes the scan forget the separator's position. */
  datatype Tail = Tail(status: Status, events: seq<Event>, kept: seq<string>, blocked: bool)

  function AfterSeparator(cfg: Config, rest: seq<string>, unknown: bool): Tail {
    if rest == [] then Tail(Done, [], [], false)
    else
      var t := Collect(cfg, rest[0]);
      if !t.status.Done? then Tail(t.status, t.events, [], false)
      else
        var r := AfterSeparator(cfg, rest[1..], unknown);
        Tail(r.status, t.events + r.events,
             if !r.status.Done? then [] else (if t.parsed then [] else [rest[0]]) + r.kept,
             r.status.Done? && ((!t.parsed && (unknown || Dashed(rest[0]))) || r.blocked))
  }

  /** One turn of the main loop: `used` following arguments are skipped, the rest describes the next turn. */
  datatype Turn = Turn(status: Status, events: seq<Event>, kept: seq<string>, used: nat, unknown: bool, taken: bool)

  function PlainTurn(t: Taken, arg: string, unknown: bool, taken: bool): Turn {
    Turn(t.status, t.events, if taken || t.parsed then [] else [arg], 0, unknown, false)
  }

  function LongTurn(cfg: Config, t: Taken, arg: string, unknown: bool, taken: bool): Turn {
    if !t.status.Done? || t.parsed then Turn(t.status, t.events, [], t.used, unknown, false)
    else if cfg.ignoreUnknown then Turn(Done, [], if taken then [] else [arg], 0, unknown, false)
    else Turn(UnknownOption, [], [], 0, unknown, false)
  }

  function ClusterTurn(cfg: Config, c: Cluster, unknown: bool, taken: bool): Turn {
    if !cfg.ignoreUnknown then Turn(c.status, c.events, [], if c.took then 1 else 0, unknown, false)
    else Turn(c.status, c.events, if taken || c.unknown == [] then [] else ["-" + c.unknown], 0, unknown || !c.parsed,
              c.took)
  }

  /**
   * A turn on any argument but `--`. `unknown` is has_unknown; `taken`: the argument is already
   * marked for removal (it is the value of a short option, in ignore-unknown mode).
   */
  function Next(cfg: Config, arg: string, more: seq<string>, unknown: bool, taken: bool): (t: Turn)
    ensures t.used <= |more|
    ensures !cfg.ignoreUnknown ==> t.unknown == unknown && !t.taken
  {
    if !IsOption(arg) then PlainTurn(Collect(cfg, arg), arg, unknown, taken)
    else if arg[1] == '-' then LongTurn(cfg, Long(cfg, arg[2..], more), arg, unknown, taken)
    else ClusterTurn(cfg, Letters(cfg, arg[1..], more, false, false), unknown, taken)
  }

  /** The main loop from some argument on. */
  function Scan(cfg: Config, rest: seq<string>, unknown: bool, taken: bool): Outcome
    decreases |rest|
  {
    if rest == [] then Outcome(Done, [], [])
    else if rest[0] == "--" then
      var t := AfterSeparator(cfg, rest[1..], unknown);
      Outcome(t.status, t.events,
              if !t.status.Done? then [] else (if taken || !t.blocked then [] else ["--"]) + t.kept)
    else
      var t := Next(cfg, rest[0], rest[1..], unknown, taken);
      if !t.status.Done? then Outcome(t.status, t.events, [])
      else Prepend(t.events, t.kept, Scan(cfg, rest[1 + t.used..], t.unknown, t.taken))
  }

  /** The whole parse: argv[0] is never looked at. */
  function Parse(cfg: Config, args: seq<string>): Outcome {
    if args == [] then Outcome(Done, [], []) else Prepend([], [args[0]], Scan(cfg, args[1..], false, false))
  }
}
