/** What the parser promises about whole command lines, as laws of `Scan` and `Parse`. */
module OptionLaws {
  import opened Common
  import opened OptionModel
  import opened OptionGroup

  // ----- a scan that stays within its arguments

  /** The scan gets through all of `args`, ends exactly at their end and meets no separator. */
  predicate Open(cfg: Config, args: seq<string>)
    decreases |args|
  {
    args == [] ||
    (args[0] != "--" &&
     var t := Next(cfg, args[0], args[1..], false, false);
     t.status.Done? && Open(cfg, args[1 + t.used..]))
  }

  /** The first k arguments are there in both lists, and are the same. */
  predicate Agree(a: seq<string>, b: seq<string>, k: nat) {
    k <= |a| && k <= |b| && forall i :: 0 <= i < k ==> a[i] == b[i]
  }

  lemma {:induction false} LongEntriesLocal(cfg: Config, entries: seq<Entry>, arg: string, aliased: bool,
                                            a: seq<string>, b: seq<string>, t: Taken)
    requires t.used <= |a| && LongEntries(cfg, entries, arg, aliased, a, t).status.Done?
    requires Agree(a, b, LongEntries(cfg, entries, arg, aliased, a, t).used)
    ensures LongEntries(cfg, entries, arg, aliased, b, t) == LongEntries(cfg, entries, arg, aliased, a, t)
    decreases |entries|
  {
    if entries != [] && t.status.Done? {
      var t' := LongEntry(cfg, entries[0], arg, aliased, a, t);
      assert LongEntry(cfg, entries[0], arg, aliased, b, t) == t';
      LongEntriesLocal(cfg, entries[1..], arg, aliased, a, b, t');
    }
  }

  /** Entries that did not match leave things as they were. */
  lemma {:induction false} LongEntriesIdle(cfg: Config, entries: seq<Entry>, arg: string, aliased: bool,
                                           rest: seq<string>, t: Taken)
    requires t.used <= |rest|
    ensures var t' := LongEntries(cfg, entries, arg, aliased, rest, t);
            && (t.parsed ==> t'.parsed)
            && (t'.status.Done? && !t'.parsed ==> t' == t)
    decreases |entries|
  {
    if entries != [] && t.status.Done? {
      LongEntriesIdle(cfg, entries[1..], arg, aliased, rest, LongEntry(cfg, entries[0], arg, aliased, rest, t));
    }
  }

  lemma {:induction false} LongGroupsLocal(cfg: Config, groups: seq<Group>, arg: string, a: seq<string>, b: seq<string>)
    requires LongGroups(cfg, groups, arg, a).status.Done? && Agree(a, b, LongGroups(cfg, groups, arg, a).used)
    ensures LongGroups(cfg, groups, arg, b) == LongGroups(cfg, groups, arg, a)
  {
    if groups != [] {
      LongEntriesIdle(cfg, groups[0].entries, arg, false, a, NotTaken);
      LongEntriesLocal(cfg, groups[0].entries, arg, false, a, b, NotTaken);
      if !LongEntries(cfg, groups[0].entries, arg, false, a, NotTaken).parsed {
        LongGroupsLocal(cfg, groups[1..], arg, a, b);
      }
    }
  }

  lemma {:induction false} AliasGroupsLocal(cfg: Config, groups: seq<Group>, arg: string, dash: nat,
                                            a: seq<string>, b: seq<string>)
    requires dash < |arg| && AliasGroups(cfg, groups, arg, dash, a).status.Done?
    requires Agree(a, b, AliasGroups(cfg, groups, arg, dash, a).used)
    ensures AliasGroups(cfg, groups, arg, dash, b) == AliasGroups(cfg, groups, arg, dash, a)
  {
    if groups != [] {
      var own := arg[..dash] <= groups[0].name;
      if own {
        LongEntriesIdle(cfg, groups[0].entries, arg[dash + 1..], true, a, NotTaken);
        LongEntriesLocal(cfg, groups[0].entries, arg[dash + 1..], true, a, b, NotTaken);
      }
      if !own || !LongEntries(cfg, groups[0].entries, arg[dash + 1..], true, a, NotTaken).parsed {
        AliasGroupsLocal(cfg, groups[1..], arg, dash, a, b);
      }
    }
  }

  /** A long option that was served does not look at anything past the values it took. */
  lemma LongLocal(cfg: Config, arg: string, a: seq<string>, b: seq<string>)
    requires Long(cfg, arg, a).status.Done? && Agree(a, b, Long(cfg, arg, a).used)
    ensures Long(cfg, arg, b) == Long(cfg, arg, a)
  {
    var main := MainEntries(cfg);
    LongEntriesIdle(cfg, main, arg, false, a, NotTaken);
    LongEntriesLocal(cfg, main, arg, false, a, b, NotTaken);
    if !LongEntries(cfg, main, arg, false, a, NotTaken).parsed {
      LongGroupsIdle(cfg, cfg.groups, arg, a);
      LongGroupsLocal(cfg, cfg.groups, arg, a, b);
      if !LongGroups(cfg, cfg.groups, arg, a).parsed && FirstDash(arg) < |arg| {
        AliasGroupsLocal(cfg, cfg.groups, arg, FirstDash(arg), a, b);
      }
    }
  }

  lemma {:induction false} LongGroupsIdle(cfg: Config, groups: seq<Group>, arg: string, rest: seq<string>)
    ensures var t := LongGroups(cfg, groups, arg, rest);
            t.status.Done? && !t.parsed ==> t == NotTaken
  {
    if groups != [] {
      LongEntriesIdle(cfg, groups[0].entries, arg, false, rest, NotTaken);
      LongGroupsIdle(cfg, groups[1..], arg, rest);
    }
  }

  // ----- short options: what a letter means

  predicate Claims(entries: seq<Entry>, letter: char) {
    exists e :: e in entries && e.short == Some(letter)
  }

  /** The entries a letter is tried against last: the main group's if they claim it, else the first that does. */
  function Claimants(groups: seq<Group>, letter: char): seq<Entry> {
    if groups == [] then []
    else if Claims(groups[0].entries, letter) then groups[0].entries
    else Claimants(groups[1..], letter)
  }

  function Claimant(cfg: Config, letter: char): seq<Entry> {
    if Claims(MainEntries(cfg), letter) then MainEntries(cfg) else Claimants(cfg.groups, letter)
  }

  predicate ValueIn(entries: seq<Entry>, letter: char) {
    exists e :: e in entries && e.short == Some(letter) && !e.arg.ArgFlag?
  }

  predicate TakesValue(cfg: Config, letter: char) {
    ValueIn(Claimant(cfg, letter), letter)
  }

  /** Some entry of some group has this short name. */
  predicate Known(cfg: Config, letter: char) {
    Claims(MainEntries(cfg), letter) || exists g :: g in cfg.groups && Claims(g.entries, letter)
  }

  /** Only the head of `rest` matters to a letter, and only if an entry wants a value. */
  predicate SameHead(a: seq<string>, b: seq<string>) {
    (a == [] <==> b == []) && (a != [] ==> a[0] == b[0])
  }

  lemma ShortEntryMeaning(cfg: Config, e: Entry, letter: char, rest: seq<string>, took: bool,
                          rest': seq<string>, took': bool, t: Taken)
    requires t.status.Done? && t.used <= 1 && (t.used == 1 ==> !took && !took' && rest != [] && rest' != [])
    requires e.short != Some(letter) || e.arg.ArgFlag? || (SameHead(rest, rest') && took == took')
    ensures var t', own := ShortEntry(cfg, e, letter, rest, took, t), e.short == Some(letter);
            && t' == ShortEntry(cfg, e, letter, rest', took', t)
            && (t'.status.Done? && own ==> t'.parsed && |t'.events| == |t.events| + 1)
            && (!own ==> t' == t)
            && (!t'.status.Done? ==> own && !e.arg.ArgFlag? && t'.events == t.events && t'.parsed == t.parsed)
            && (t'.status.Done? && own && !e.arg.ArgFlag? ==> t'.used == 1)
            && (e.arg.ArgFlag? ==> t'.used == t.used)
  {
  }

  lemma {:induction false} ShortEntriesMeaning(cfg: Config, entries: seq<Entry>, letter: char, rest: seq<string>,
                                               took: bool, rest': seq<string>, took': bool, t: Taken)
    requires t.status.Done? && t.used <= 1 && (t.used == 1 ==> !took && !took' && rest != [] && rest' != [])
    requires !ValueIn(entries, letter) || (SameHead(rest, rest') && took == took')
    ensures var t' := ShortEntries(cfg, entries, letter, rest, took, t);
            && t' == ShortEntries(cfg, entries, letter, rest', took', t)
            && |t.events| <= |t'.events|
            && (t'.parsed ==> t.parsed || |t.events| < |t'.events|)
            && (!ValueIn(entries, letter) ==> t'.status.Done?)
            && (t'.status.Done? ==>
                  && (t'.parsed <==> t.parsed || Claims(entries, letter))
                  && (t'.used == 1 <==> t.used == 1 || ValueIn(entries, letter)))
    decreases |entries|
  {
    if entries != [] {
      var e := entries[0];
      var t' := ShortEntry(cfg, e, letter, rest, took, t);
      assert forall x :: x in entries <==> x == e || x in entries[1..];
      ShortEntryMeaning(cfg, e, letter, rest, took, rest', took', t);
      if t'.status.Done? {
        ShortEntriesMeaning(cfg, entries[1..], letter, rest, took, rest', took', t');
      }
    }
  }

  lemma {:induction false} LetterGroupsMeaning(cfg: Config, groups: seq<Group>, letter: char, rest: seq<string>,
                                               took: bool, rest': seq<string>, took': bool)
    requires !ValueIn(Claimants(groups, letter), letter) || (SameHead(rest, rest') && took == took')
    ensures var t := LetterGroups(cfg, groups, letter, rest, took);
            && t == LetterGroups(cfg, groups, letter, rest', took')
            && (t.parsed ==> t.events != [])
            && (!ValueIn(Claimants(groups, letter), letter) ==> t.status.Done?)
            && (t.status.Done? ==>
                  && (t.parsed <==> exists g :: g in groups && Claims(g.entries, letter))
                  && (t.used == 1 <==> ValueIn(Claimants(groups, letter), letter)))
  {
    if groups != [] {
      assert forall g :: g in groups <==> g == groups[0] || g in groups[1..];
      ShortEntriesMeaning(cfg, groups[0].entries, letter, rest, took, rest', took', NotTaken);
      if !Claims(groups[0].entries, letter) {
        Unclaimed(cfg, groups[0].entries, letter, rest, took);
        LetterGroupsMeaning(cfg, groups[1..], letter, rest, took, rest', took');
      }
    }
  }

  lemma {:induction false} Unclaimed(cfg: Config, entries: seq<Entry>, letter: char, rest: seq<string>, took: bool)
    requires !Claims(entries, letter)
    ensures ShortEntries(cfg, entries, letter, rest, took, NotTaken) == NotTaken
  {
    if entries != [] {
      assert entries[0] in entries;
      assert forall x :: x in entries[1..] ==> x in entries;
      Unclaimed(cfg, entries[1..], letter, rest, took);
    }
  }

  lemma {:induction false} ClaimantsKnown(groups: seq<Group>, letter: char)
    requires ValueIn(Claimants(groups, letter), letter)
    ensures exists g :: g in groups && Claims(g.entries, letter)
  {
    if Claims(groups[0].entries, letter) {
      assert groups[0] in groups;
    } else {
      ClaimantsKnown(groups[1..], letter);
    }
  }

  lemma LetterMeaning(cfg: Config, letter: char, rest: seq<string>, took: bool, rest': seq<string>, took': bool)
    requires !TakesValue(cfg, letter) || (SameHead(rest, rest') && took == took')
    ensures var t := Letter(cfg, letter, rest, took);
            && t == Letter(cfg, letter, rest', took')
            && (TakesValue(cfg, letter) ==> Known(cfg, letter))
            && (t.parsed ==> t.events != [])
            && (!TakesValue(cfg, letter) ==> t.status.Done?)
            && (t.status.Done? ==> (t.parsed <==> Known(cfg, letter)) && (t.used == 1 <==> TakesValue(cfg, letter)))
  {
    var main := MainEntries(cfg);
    if Claims(main, letter) {
      ShortEntriesMeaning(cfg, main, letter, rest, took, rest', took', NotTaken);
    } else {
      Unclaimed(cfg, main, letter, rest, took);
      Unclaimed(cfg, main, letter, rest', took');
      LetterGroupsMeaning(cfg, cfg.groups, letter, rest, took, rest', took');
      if TakesValue(cfg, letter) {
        ClaimantsKnown(cfg.groups, letter);
      }
    }
  }

  // ----- composing scans

  lemma {:induction false} LettersLocal(cfg: Config, letters: string, a: seq<string>, b: seq<string>,
                                        took: bool, parsed: bool)
    requires Letters(cfg, letters, a, took, parsed).status.Done?
    requires Letters(cfg, letters, a, took, parsed).took ==> SameHead(a, b)
    ensures Letters(cfg, letters, b, took, parsed) == Letters(cfg, letters, a, took, parsed)
    decreases |letters|
  {
    if letters != [] {
      var t := Letter(cfg, letters[0], a, took);
      LetterMeaning(cfg, letters[0], a, took, a, took);
      LetterMeaning(cfg, letters[0], a, took, b, took);
      LettersLocal(cfg, letters[1..], a, b, took || (t.parsed && t.used == 1), t.parsed);
    }
  }

  /** A turn that went well depends only on its argument and on the values it took. */
  lemma NextLocal(cfg: Config, arg: string, a: seq<string>, b: seq<string>)
    requires !cfg.ignoreUnknown && Next(cfg, arg, a, false, false).status.Done?
    requires Agree(a, b, Next(cfg, arg, a, false, false).used)
    ensures Next(cfg, arg, b, false, false) == Next(cfg, arg, a, false, false)
  {
    if IsOption(arg) {
      if arg[1] == '-' {
        LongLocal(cfg, arg[2..], a, b);
      } else {
        LettersLocal(cfg, arg[1..], a, b, false, false);
      }
    }
  }

  lemma PrependTwice(e1: seq<Event>, k1: seq<string>, e2: seq<Event>, k2: seq<string>, o: Outcome)
    ensures Prepend(e1, k1, Prepend(e2, k2, o)) == Prepend(e1 + e2, k1 + k2, o)
  {
    assert e1 + (e2 + o.events) == e1 + e2 + o.events;
    assert k1 + (k2 + o.kept) == k1 + k2 + o.kept;
  }

  lemma PrependNothing(o: Outcome)
    requires o.status.Done? || o.kept == []
    ensures Prepend([], [], o) == o
  {
    assert [] + o.events == o.events && [] + o.kept == o.kept;
  }

  /** A command line whose first part is complete in itself is scanned part by part. */
  lemma {:induction false} ScanAppend(cfg: Config, first: seq<string>, second: seq<string>)
    requires !cfg.ignoreUnknown && Open(cfg, first)
    ensures Scan(cfg, first, false, false).status.Done?
    ensures var o := Scan(cfg, first, false, false);
            Scan(cfg, first + second, false, false) == Prepend(o.events, o.kept, Scan(cfg, second, false, false))
    decreases |first|
  {
    if first == [] {
      assert first + second == second;
      FailureKeepsNothing(cfg, second, false, false);
      PrependNothing(Scan(cfg, second, false, false));
    } else {
      var t := Next(cfg, first[0], first[1..], false, false);
      DropAppend(first, second, 1);
      DropAppend(first, second, 1 + t.used);
      NextLocal(cfg, first[0], first[1..], first[1..] + second);
      ScanAppend(cfg, first[1 + t.used..], second);
      var o := Scan(cfg, first[1 + t.used..], false, false);
      PrependTwice(t.events, t.kept, o.events, o.kept, Scan(cfg, second, false, false));
    }
  }

  lemma FailureKeepsNothing(cfg: Config, rest: seq<string>, unknown: bool, taken: bool)
    ensures !Scan(cfg, rest, unknown, taken).status.Done? ==> Scan(cfg, rest, unknown, taken).kept == []
  {
  }

  // ----- leftovers

  /** The main group declares an entry for the remaining arguments. */
  predicate Collects(cfg: Config) {
    exists e :: e in MainEntries(cfg) && e.long == []
  }

  lemma {:induction false} CollectEntriesAll(cfg: Config, entries: seq<Entry>, arg: string)
    ensures var t := CollectEntries(cfg, entries, arg);
            if exists e :: e in entries && e.long == [] then t.status.Done? ==> t.parsed else t == NotTaken
  {
    if entries != [] {
      assert forall x :: x in entries <==> x == entries[0] || x in entries[1..];
      if entries[0].long != [] {
        CollectEntriesAll(cfg, entries[1..], arg);
      }
    }
  }

  /** Collecting is all or nothing: either every remaining argument is collected or none is looked at. */
  lemma CollectAll(cfg: Config, arg: string)
    ensures Collects(cfg) && Collect(cfg, arg).status.Done? ==> Collect(cfg, arg).parsed
    ensures !Collects(cfg) ==> Collect(cfg, arg) == NotTaken
  {
    CollectEntriesAll(cfg, MainEntries(cfg), arg);
  }

  predicate AnyDashed(args: seq<string>) {
    exists a :: a in args && Dashed(a)
  }

  lemma {:induction false} AfterSeparatorAll(cfg: Config, rest: seq<string>, unknown: bool)
    ensures var t := AfterSeparator(cfg, rest, unknown);
            && (!Collects(cfg) ==>
                  && t.status.Done? && t.events == [] && t.kept == rest
                  && (t.blocked <==> if unknown then rest != [] else AnyDashed(rest)))
            && (Collects(cfg) && t.status.Done? ==> t.kept == [] && !t.blocked)
  {
    if rest != [] {
      CollectAll(cfg, rest[0]);
      AfterSeparatorAll(cfg, rest[1..], unknown);
      assert rest == [rest[0]] + rest[1..];
      assert forall a :: a in rest <==> a == rest[0] || a in rest[1..];
    }
  }

  /** An argument that is not an option, where nothing collects it. */
  lemma ScanPlain(cfg: Config, arg: string, more: seq<string>)
    requires !Collects(cfg) && !IsOption(arg)
    ensures var o := Scan(cfg, more, false, false);
            o.status.Done? && o.events == [] ==>
              Scan(cfg, [arg] + more, false, false) == Outcome(Done, [], [arg] + o.kept)
  {
    CollectAll(cfg, arg);
    var all := [arg] + more;
    assert all[0] == arg && all[1..] == more && all[1 + 0..] == more;
    assert Next(cfg, arg, more, false, false) == Turn(Done, [], [arg], 0, false, false);
  }

  lemma {:induction false} PlainScan(cfg: Config, args: seq<string>)
    requires !Collects(cfg) && !AnyDashed(args)
    ensures Scan(cfg, args, false, false) == Outcome(Done, [], args)
  {
    if args != [] {
      assert args[0] in args;
      assert forall a :: a in args[1..] ==> a in args;
      PlainScan(cfg, args[1..]);
      ScanPlain(cfg, args[0], args[1..]);
      assert [args[0]] + args[1..] == args;
    }
  }

  lemma SeparatorLeftovers(cfg: Config, more: seq<string>)
    requires Scan(cfg, ["--"] + more, false, false).status.Done?
    ensures var kept := Scan(cfg, ["--"] + more, false, false).kept;
            Scan(cfg, kept, false, false) == Outcome(Done, [], kept)
  {
    var tail := ["--"] + more;
    assert tail[1..] == more;
    AtSeparator(cfg, tail);
    AfterSeparatorAll(cfg, more, false);
    if !Collects(cfg) && !AnyDashed(more) {
      PlainScan(cfg, more);
    }
  }

  lemma {:induction false} ScanLeftovers(cfg: Config, rest: seq<string>)
    requires !cfg.ignoreUnknown && Scan(cfg, rest, false, false).status.Done?
    ensures var kept := Scan(cfg, rest, false, false).kept;
            Scan(cfg, kept, false, false) == Outcome(Done, [], kept)
    decreases |rest|
  {
    if rest == [] {
    } else if rest[0] == "--" {
      assert rest == ["--"] + rest[1..];
      SeparatorLeftovers(cfg, rest[1..]);
    } else {
      var t := Next(cfg, rest[0], rest[1..], false, false);
      ScanLeftovers(cfg, rest[1 + t.used..]);
      var kept := Scan(cfg, rest[1 + t.used..], false, false).kept;
      TurnKeeps(cfg, rest[0], rest[1..]);
      if t.kept == [] {
        assert t.kept + kept == kept;
      } else {
        ScanPlain(cfg, rest[0], kept);
      }
    }
  }

  lemma TurnKeeps(cfg: Config, arg: string, more: seq<string>)
    requires !cfg.ignoreUnknown
    ensures var t := Next(cfg, arg, more, false, false);
            t.status.Done? && t.kept != [] ==> t.kept == [arg] && !IsOption(arg) && !Collects(cfg)
  {
    CollectAll(cfg, arg);
  }

  /** Parsing what a successful parse left behind succeeds, matches nothing and changes nothing. */
  lemma LeftoversAreFixed(cfg: Config, args: seq<string>)
    requires !cfg.ignoreUnknown && Parse(cfg, args).status.Done?
    ensures var kept := Parse(cfg, args).kept;
            Parse(cfg, kept) == Outcome(Done, [], kept)
  {
    if args != [] {
      ScanLeftovers(cfg, args[1..]);
      var kept := Scan(cfg, args[1..], false, false).kept;
      assert ([args[0]] + kept)[1..] == kept;
    }
  }

  // ----- the separator

  /** How far the scan gets before it meets `--`; |rest| if it never does. */
  function Separator(cfg: Config, rest: seq<string>): (p: nat)
    ensures p <= |rest|
    ensures p < |rest| ==> rest[p] == "--"
    decreases |rest|
  {
    if rest == [] || rest[0] == "--" then 0
    else
      var t := Next(cfg, rest[0], rest[1..], false, false);
      1 + t.used + Separator(cfg, rest[1 + t.used..])
  }

  lemma OpenStep(cfg: Config, args: seq<string>, t: Turn)
    requires args != [] && args[0] != "--" && t == Next(cfg, args[0], args[1..], false, false) && t.status.Done?
    requires Open(cfg, args[1 + t.used..])
    ensures Open(cfg, args)
  {
  }

  /** The arguments before the separator make a complete command line of their own. */
  lemma {:induction false} BeforeSeparator(cfg: Config, rest: seq<string>)
    requires !cfg.ignoreUnknown && Scan(cfg, rest, false, false).status.Done?
    ensures Open(cfg, rest[..Separator(cfg, rest)])
    decreases |rest|
  {
    if rest != [] && rest[0] != "--" {
      var t := Next(cfg, rest[0], rest[1..], false, false);
      var p, next := Separator(cfg, rest), rest[1 + t.used..];
      BeforeSeparator(cfg, next);
      var before := rest[..p];
      assert before[0] == rest[0] && Agree(rest[1..], before[1..], t.used);
      NextLocal(cfg, rest[0], rest[1..], before[1..]);
      assert before[1 + t.used..] == next[..Separator(cfg, next)];
      OpenStep(cfg, before, t);
    }
  }

  /**
   * Documentation of g_option_context_parse: the first `--` the scan reaches is stripped, unless an
   * argument after it starts with a dash and was left uncollected.
   */
  lemma SeparatorFate(cfg: Config, rest: seq<string>)
    requires !cfg.ignoreUnknown && Scan(cfg, rest, false, false).status.Done?
    ensures var p := Separator(cfg, rest);
            var before := Scan(cfg, rest[..p], false, false);
            && before.status.Done?
            && Scan(cfg, rest, false, false).kept == before.kept + (
                 if rest[p..] == [] || Collects(cfg) then []
                 else if AnyDashed(rest[p..][1..]) then rest[p..]
                 else rest[p..][1..])
  {
    var p := Separator(cfg, rest);
    BeforeSeparator(cfg, rest);
    assert rest == rest[..p] + rest[p..];
    AroundSeparator(cfg, rest[..p], rest[p..]);
  }

  lemma AroundSeparator(cfg: Config, front: seq<string>, tail: seq<string>)
    requires !cfg.ignoreUnknown && Open(cfg, front) && (tail != [] ==> tail[0] == "--")
    requires Scan(cfg, front + tail, false, false).status.Done?
    ensures Scan(cfg, front, false, false).status.Done?
    ensures Scan(cfg, front + tail, false, false).kept == Scan(cfg, front, false, false).kept +
              if tail == [] || Collects(cfg) then [] else if AnyDashed(tail[1..]) then tail else tail[1..]
  {
    ScanAppend(cfg, front, tail);
    AtSeparator(cfg, tail);
  }

  lemma AtSeparator(cfg: Config, tail: seq<string>)
    requires Scan(cfg, tail, false, false).status.Done? && (tail != [] ==> tail[0] == "--")
    ensures Scan(cfg, tail, false, false).kept ==
              if tail == [] || Collects(cfg) then [] else if AnyDashed(tail[1..]) then tail else tail[1..]
  {
    if tail != [] {
      AfterSeparatorAll(cfg, tail[1..], false);
      var t := AfterSeparator(cfg, tail[1..], false);
      assert Scan(cfg, tail, false, false).kept == (if t.blocked then ["--"] else []) + t.kept;
      if t.blocked {
        assert ["--"] + tail[1..] == tail;
      } else {
        assert [] + t.kept == t.kept;
      }
    }
  }

  // ----- clusters of short options

  /** A cluster's letters written as arguments of their own, each value right after its letter. */
  function Spread(cfg: Config, letters: string, rest: seq<string>): seq<string> {
    if letters == [] then rest
    else if TakesValue(cfg, letters[0]) && rest != [] then
      ["-" + [letters[0]], rest[0]] + Spread(cfg, letters[1..], rest[1..])
    else ["-" + [letters[0]]] + Spread(cfg, letters[1..], rest)
  }

  /** One letter on its own. */
  lemma SingleLetter(cfg: Config, letter: char, more: seq<string>)
    requires !cfg.ignoreUnknown && letter != '-'
    ensures var t := Letter(cfg, letter, more, false);
            t.status.Done? && t.parsed ==>
              && t.used <= |more|
              && Scan(cfg, ["-" + [letter]] + more, false, false)
                 == Prepend(t.events, [], Scan(cfg, more[t.used..], false, false))
  {
    var arg := "-" + [letter];
    var all := [arg] + more;
    assert arg[1..] == [letter] && all[1..] == more;
    LettersOfOne(cfg, letter, more);
    var t := Letter(cfg, letter, more, false);
    if t.status.Done? && t.parsed {
      var n := Next(cfg, arg, more, false, false);
      assert n == Turn(Done, t.events, [], t.used, false, false);
      assert all[1 + t.used..] == more[t.used..];
    }
  }

  lemma LettersOfOne(cfg: Config, letter: char, more: seq<string>)
    ensures var t := Letter(cfg, letter, more, false);
            t.status.Done? && t.parsed ==>
              Letters(cfg, [letter], more, false, false) == Cluster(Done, t.events, t.used == 1, [], true)
  {
    assert [letter][1..] == [];
    var t := Letter(cfg, letter, more, false);
    assert t.events + [] == t.events;
  }

  /** The first letter of a cluster behaves the same on its own. */
  lemma SpreadHead(cfg: Config, letters: string, rest: seq<string>, took: bool)
    requires !cfg.ignoreUnknown && letters != [] && letters[0] != '-' && (took ==> rest != [])
    requires var t := Letter(cfg, letters[0], rest, took); t.status.Done? && t.parsed
    ensures var t := Letter(cfg, letters[0], rest, took);
            Scan(cfg, Spread(cfg, letters, if took then rest[1..] else rest), false, false)
            == var left := Spread(cfg, letters[1..], if took || t.used == 1 then rest[1..] else rest);
               Prepend(t.events, [], Scan(cfg, left, false, false))
  {
    var letter := letters[0];
    var t := Letter(cfg, letter, rest, took);
    LetterMeaning(cfg, letter, rest, took, rest, took);
    var tail := Spread(cfg, letters[1..], if took || t.used == 1 then rest[1..] else rest);
    var more := if t.used == 1 then [rest[0]] + tail else tail;
    SpreadIs(cfg, letters, if took then rest[1..] else rest);
    LetterMeaning(cfg, letter, rest, took, more, false);
    SingleLetter(cfg, letter, more);
    assert more[t.used..] == tail;
  }

  lemma SpreadIs(cfg: Config, letters: string, rest: seq<string>)
    requires letters != []
    ensures Spread(cfg, letters, rest) == ["-" + [letters[0]]] + (
              if TakesValue(cfg, letters[0]) && rest != [] then [rest[0]] + Spread(cfg, letters[1..], rest[1..])
              else Spread(cfg, letters[1..], rest))
  {
  }

  lemma {:induction false} SpreadLetters(cfg: Config, letters: string, rest: seq<string>, took: bool, parsed: bool)
    requires !cfg.ignoreUnknown && '-' !in letters && (took ==> rest != [])
    requires Letters(cfg, letters, rest, took, parsed).status.Done?
    ensures var c := Letters(cfg, letters, rest, took, parsed);
            Scan(cfg, Spread(cfg, letters, if took then rest[1..] else rest), false, false)
            == Prepend(c.events, [], Scan(cfg, rest[if c.took then 1 else 0..], false, false))
    decreases |letters|
  {
    if letters == [] {
      var free := if took then rest[1..] else rest;
      FailureKeepsNothing(cfg, free, false, false);
      PrependNothing(Scan(cfg, free, false, false));
    } else {
      var t := Letter(cfg, letters[0], rest, took);
      SpreadHead(cfg, letters, rest, took);
      SpreadLetters(cfg, letters[1..], rest, took || t.used == 1, true);
      var c := Letters(cfg, letters[1..], rest, took || t.used == 1, true);
      PrependTwice(t.events, [], c.events, [], Scan(cfg, rest[if c.took then 1 else 0..], false, false));
    }
  }

  /** A cluster that parsed is made of known letters, and no program has an option named '-'. */
  lemma {:induction false} LettersKnown(cfg: Config, letters: string, rest: seq<string>, took: bool, parsed: bool)
    requires !cfg.ignoreUnknown && Built(cfg) && Letters(cfg, letters, rest, took, parsed).status.Done?
    ensures forall l :: l in letters ==> Known(cfg, l)
    ensures '-' !in letters
    decreases |letters|
  {
    if letters != [] {
      LetterMeaning(cfg, letters[0], rest, took, rest, took);
      LettersKnown(cfg, letters[1..], rest, took || Letter(cfg, letters[0], rest, took).used == 1, true);
      assert forall l :: l in letters <==> l == letters[0] || l in letters[1..];
    }
  }

  /**
   * Splitting a cluster that parsed, anywhere on the command line, changes neither the writes nor
   * the leftover arguments. (That only one letter can take a value follows from success.)
   */
  lemma ClusterSplitting(cfg: Config, program: string, before: seq<string>, letters: string, rest: seq<string>)
    requires !cfg.ignoreUnknown && Built(cfg) && Open(cfg, before)
    requires letters != [] && letters[0] != '-'
    requires Parse(cfg, [program] + (before + (["-" + letters] + rest))).status.Done?
    ensures Parse(cfg, [program] + (before + Spread(cfg, letters, rest)))
            == Parse(cfg, [program] + (before + (["-" + letters] + rest)))
  {
    var cluster, spread := ["-" + letters] + rest, Spread(cfg, letters, rest);
    ParseScans(cfg, program, before + cluster);
    ParseScans(cfg, program, before + spread);
    ScanAppend(cfg, before, cluster);
    ScanAppend(cfg, before, spread);
    ClusterScan(cfg, letters, rest);
  }

  lemma ParseScans(cfg: Config, program: string, args: seq<string>)
    ensures Parse(cfg, [program] + args) == Prepend([], [program], Scan(cfg, args, false, false))
  {
    assert ([program] + args)[1..] == args;
  }

  lemma ClusterScan(cfg: Config, letters: string, rest: seq<string>)
    requires !cfg.ignoreUnknown && Built(cfg) && letters != [] && letters[0] != '-'
    requires Scan(cfg, ["-" + letters] + rest, false, false).status.Done?
    ensures Scan(cfg, Spread(cfg, letters, rest), false, false) == Scan(cfg, ["-" + letters] + rest, false, false)
  {
    ClusterScans(cfg, letters, rest);
    LettersKnown(cfg, letters, rest, false, false);
    SpreadLetters(cfg, letters, rest, false, false);
  }

  lemma ClusterScans(cfg: Config, letters: string, rest: seq<string>)
    requires !cfg.ignoreUnknown && letters != [] && letters[0] != '-'
    ensures var c := Letters(cfg, letters, rest, false, false);
            Scan(cfg, ["-" + letters] + rest, false, false) ==
              if c.status.Done? then Prepend(c.events, [], Scan(cfg, rest[if c.took then 1 else 0..], false, false))
              else Outcome(c.status, c.events, [])
  {
    var cluster := ["-" + letters] + rest;
    assert cluster[0][1..] == letters && cluster[1..] == rest;
    var c := Letters(cfg, letters, rest, false, false);
    var n := Next(cfg, cluster[0], rest, false, false);
    assert n == Turn(c.status, c.events, [], if c.took then 1 else 0, false, false);
    assert cluster[1 + n.used..] == rest[n.used..];
  }

  /** A cluster of known flags always parses. */
  lemma {:induction false} FlagCluster(cfg: Config, letters: string, rest: seq<string>, took: bool, parsed: bool)
    requires forall l :: l in letters ==> Known(cfg, l) && !TakesValue(cfg, l)
    ensures Letters(cfg, letters, rest, took, parsed).status.Done?
    ensures Letters(cfg, letters, rest, took, parsed).took == took
    decreases |letters|
  {
    if letters != [] {
      LetterMeaning(cfg, letters[0], rest, took, rest, took);
      FlagCluster(cfg, letters[1..], rest, took, true);
    }
  }

  // ----- ignore-unknown mode

  /** The letters of a cluster that no entry has as its short name, in order. */
  function Unrecognised(cfg: Config, letters: string): (r: string)
    ensures |r| <= |letters|
  {
    if letters == [] then []
    else (if Known(cfg, letters[0]) then [] else [letters[0]]) + Unrecognised(cfg, letters[1..])
  }

  lemma {:induction false} LettersUnknown(cfg: Config, letters: string, rest: seq<string>, took: bool, parsed: bool)
    requires cfg.ignoreUnknown && Letters(cfg, letters, rest, took, parsed).status.Done?
    ensures var c := Letters(cfg, letters, rest, took, parsed);
            && c.unknown == Unrecognised(cfg, letters)
            && c.parsed == if letters == [] then parsed else Known(cfg, letters[|letters| - 1])
    decreases |letters|
  {
    if letters != [] {
      var t := Letter(cfg, letters[0], rest, took);
      LetterMeaning(cfg, letters[0], rest, took, rest, took);
      LettersUnknown(cfg, letters[1..], rest, took || (t.parsed && t.used == 1), t.parsed);
    }
  }

  /**
   * In ignore-unknown mode a cluster ends as a dash and exactly its unrecognised letters, or is
   * removed when there are none or when it was the value of the option before it.
   */
  lemma IgnoredCluster(cfg: Config, letters: string, more: seq<string>, unknown: bool, taken: bool)
    requires cfg.ignoreUnknown && letters != [] && letters[0] != '-'
    requires Scan(cfg, ["-" + letters] + more, unknown, taken).status.Done?
    ensures var left := Unrecognised(cfg, letters);
            var c := Letters(cfg, letters, more, false, false);
            && c.status.Done?
            && Scan(cfg, ["-" + letters] + more, unknown, taken)
               == Prepend(c.events, if taken || left == [] then [] else ["-" + left],
                          Scan(cfg, more, unknown || !Known(cfg, letters[|letters| - 1]), c.took))
            && |"-" + left| <= |"-" + letters|
  {
    var all := ["-" + letters] + more;
    assert all[1..] == more && all[0][1..] == letters;
    LettersUnknown(cfg, letters, more, false, false);
  }
}
