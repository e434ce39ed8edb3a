/**
 * Leftovers in ignore-unknown mode, where they are meant to be parsed again: which argument lists a
 * parse leaves alone, and which command lines leave such a list behind.
 */
module OptionIgnore {
  import opened Common
  import opened OptionModel
  import opened OptionLaws

  // ----- long options nobody serves

  predicate Serves(entries: seq<Entry>, arg: string, aliased: bool) {
    exists e :: e in entries && LongMatches(e, arg) && !(aliased && e.noAlias)
  }

  predicate GroupServes(groups: seq<Group>, arg: string) {
    exists g :: g in groups && Serves(g.entries, arg, false)
  }

  predicate AliasServes(groups: seq<Group>, arg: string, dash: nat)
    requires dash < |arg|
  {
    exists g :: g in groups && arg[..dash] <= g.name && Serves(g.entries, arg[dash + 1..], true)
  }

  /** Some entry answers to the long option, in the main group, in a group or under a group's name. */
  predicate LongServed(cfg: Config, arg: string) {
    || Serves(MainEntries(cfg), arg, false)
    || GroupServes(cfg.groups, arg)
    || (FirstDash(arg) < |arg| && AliasServes(cfg.groups, arg, FirstDash(arg)))
  }

  /** `t` came to something: it failed, or a value was written. */
  predicate Noticed(t: Taken) {
    !t.status.Done? || (t.parsed && t.events != [])
  }

  lemma LongEntryServes(cfg: Config, e: Entry, arg: string, aliased: bool, rest: seq<string>, t: Taken)
    requires t.used <= |rest| && t.status.Done? && (t.parsed ==> t.events != [])
    ensures var t' := LongEntry(cfg, e, arg, aliased, rest, t);
            && (t'.parsed ==> t'.events != []) && (t.parsed && t'.status.Done? ==> t'.parsed)
            && if LongMatches(e, arg) && !(aliased && e.noAlias) then Noticed(t') else t' == t
  {
  }

  lemma {:induction false} LongEntriesServe(cfg: Config, entries: seq<Entry>, arg: string, aliased: bool,
                                            rest: seq<string>, t: Taken)
    requires t.used <= |rest| && t.status.Done? && (t.parsed ==> t.events != [])
    ensures var t' := LongEntries(cfg, entries, arg, aliased, rest, t);
            if Serves(entries, arg, aliased) || t.parsed then Noticed(t') else t' == t
    decreases |entries|
  {
    if entries != [] {
      var t' := LongEntry(cfg, entries[0], arg, aliased, rest, t);
      LongEntryServes(cfg, entries[0], arg, aliased, rest, t);
      assert forall e :: e in entries <==> e == entries[0] || e in entries[1..];
      if t'.status.Done? {
        LongEntriesServe(cfg, entries[1..], arg, aliased, rest, t');
      }
    }
  }

  lemma {:induction false} LongGroupsServe(cfg: Config, groups: seq<Group>, arg: string, rest: seq<string>)
    ensures var t := LongGroups(cfg, groups, arg, rest);
            if GroupServes(groups, arg) then Noticed(t) else t == NotTaken
  {
    if groups != [] {
      assert forall g :: g in groups <==> g == groups[0] || g in groups[1..];
      LongEntriesServe(cfg, groups[0].entries, arg, false, rest, NotTaken);
      LongGroupsServe(cfg, groups[1..], arg, rest);
    }
  }

  lemma {:induction false} AliasGroupsServe(cfg: Config, groups: seq<Group>, arg: string, dash: nat, rest: seq<string>)
    requires dash < |arg|
    ensures var t := AliasGroups(cfg, groups, arg, dash, rest);
            if AliasServes(groups, arg, dash) then Noticed(t) else t == NotTaken
  {
    if groups != [] {
      assert forall g :: g in groups <==> g == groups[0] || g in groups[1..];
      LongEntriesServe(cfg, groups[0].entries, arg[dash + 1..], true, rest, NotTaken);
      AliasGroupsServe(cfg, groups[1..], arg, dash, rest);
    }
  }

  lemma LongServes(cfg: Config, arg: string, rest: seq<string>)
    ensures var t := Long(cfg, arg, rest);
            if LongServed(cfg, arg) then Noticed(t) else t == NotTaken
  {
    LongEntriesServe(cfg, MainEntries(cfg), arg, false, rest, NotTaken);
    LongGroupsServe(cfg, cfg.groups, arg, rest);
    if FirstDash(arg) < |arg| {
      AliasGroupsServe(cfg, cfg.groups, arg, FirstDash(arg), rest);
    }
  }

  // ----- clusters of unknown letters

  predicate AnyKnown(cfg: Config, letters: string) {
    exists l :: l in letters && Known(cfg, l)
  }

  lemma {:induction false} LettersNoticed(cfg: Config, letters: string, rest: seq<string>, took: bool, parsed: bool)
    requires cfg.ignoreUnknown
    ensures var c := Letters(cfg, letters, rest, took, parsed);
            if AnyKnown(cfg, letters) then c.status.Done? ==> c.events != []
            else c == Cluster(Done, [], took, letters, letters == [] && parsed)
    decreases |letters|
  {
    if letters != [] {
      var t := Letter(cfg, letters[0], rest, took);
      assert forall l :: l in letters <==> l == letters[0] || l in letters[1..];
      LetterMeaning(cfg, letters[0], rest, took, rest, took);
      if !Known(cfg, letters[0]) {
        LetterNotTaken(cfg, letters[0], rest, took);
      }
      LettersNoticed(cfg, letters[1..], rest, took || (t.parsed && t.used == 1), t.parsed);
      assert [letters[0]] + letters[1..] == letters;
    }
  }

  lemma LetterNotTaken(cfg: Config, letter: char, rest: seq<string>, took: bool)
    requires !Known(cfg, letter)
    ensures Letter(cfg, letter, rest, took) == NotTaken
  {
    Unclaimed(cfg, MainEntries(cfg), letter, rest, took);
    GroupsUnclaimed(cfg, cfg.groups, letter, rest, took);
  }

  lemma {:induction false} GroupsUnclaimed(cfg: Config, groups: seq<Group>, letter: char, rest: seq<string>, took: bool)
    requires forall g :: g in groups ==> !Claims(g.entries, letter)
    ensures LetterGroups(cfg, groups, letter, rest, took) == NotTaken
  {
    if groups != [] {
      assert groups[0] in groups && forall g :: g in groups[1..] ==> g in groups;
      Unclaimed(cfg, groups[0].entries, letter, rest, took);
      GroupsUnclaimed(cfg, groups[1..], letter, rest, took);
    }
  }

  predicate IsCluster(arg: string) {
    IsOption(arg) && arg[1] != '-'
  }

  // ----- lists a parse leaves alone

  /**
   * Nothing in front of the separator is a known option, nothing is collected, and a separator is still
   * needed: something follows it that starts with a dash or comes after an unknown cluster.
   */
  predicate Inert(cfg: Config, args: seq<string>, unknown: bool) {
    args == [] ||
    if args[0] == "--" then !Collects(cfg) && args[1..] != [] && (unknown || AnyDashed(args[1..]))
    else if !IsOption(args[0]) then !Collects(cfg) && Inert(cfg, args[1..], unknown)
    else if args[0][1] == '-' then !LongServed(cfg, args[0][2..]) && Inert(cfg, args[1..], unknown)
    else !AnyKnown(cfg, args[0][1..]) && Inert(cfg, args[1..], true)
  }

  predicate Untouched(cfg: Config, args: seq<string>, unknown: bool) {
    Scan(cfg, args, unknown, false) == Outcome(Done, [], args)
  }

  lemma CollectNoticed(cfg: Config, arg: string)
    ensures Collects(cfg) ==> Noticed(Collect(cfg, arg))
    ensures !Collects(cfg) ==> Collect(cfg, arg) == NotTaken
  {
    CollectAll(cfg, arg);
    CollectWrites(cfg, MainEntries(cfg), arg);
  }

  lemma {:induction false} CollectWrites(cfg: Config, entries: seq<Entry>, arg: string)
    ensures var t := CollectEntries(cfg, entries, arg); t.parsed ==> t.events != []
  {
    if entries != [] {
      CollectWrites(cfg, entries[1..], arg);
    }
  }

  /** A turn that keeps its argument, writes nothing and takes nothing. */
  lemma ScanKept(cfg: Config, args: seq<string>, unknown: bool, later: bool)
    requires args != [] && args[0] != "--"
    requires Next(cfg, args[0], args[1..], unknown, false) == Turn(Done, [], [args[0]], 0, later, false)
    ensures Untouched(cfg, args, unknown) <==> Untouched(cfg, args[1..], later)
  {
    var o := Scan(cfg, args[1..], later, false);
    assert args[1 + 0..] == args[1..] && args == [args[0]] + args[1..];
    assert [] + o.events == o.events;
    if o.status.Done? && [args[0]] + o.kept == [args[0]] + args[1..] {
      assert ([args[0]] + o.kept)[1..] == o.kept;
    }
  }

  /** A turn that fails or writes. */
  lemma ScanNoticed(cfg: Config, args: seq<string>, unknown: bool)
    requires args != [] && args[0] != "--"
    requires var t := Next(cfg, args[0], args[1..], unknown, false); t.status.Done? ==> t.events != []
    ensures !Untouched(cfg, args, unknown)
  {
  }

  lemma SeparatorStays(cfg: Config, args: seq<string>, unknown: bool)
    requires args != [] && args[0] == "--"
    ensures Untouched(cfg, args, unknown) <==> !Collects(cfg) && args[1..] != [] && (unknown || AnyDashed(args[1..]))
  {
    AfterSeparatorAll(cfg, args[1..], unknown);
    assert args == ["--"] + args[1..];
    assert [] + args[1..] == args[1..];
  }

  /** In ignore-unknown mode a scan leaves a list alone, writing nothing, exactly when it is inert. */
  lemma {:induction false} UntouchedWhen(cfg: Config, args: seq<string>, unknown: bool)
    requires cfg.ignoreUnknown
    ensures Untouched(cfg, args, unknown) <==> Inert(cfg, args, unknown)
    decreases |args|
  {
    if args == [] {
    } else if args[0] == "--" {
      SeparatorStays(cfg, args, unknown);
    } else {
      var arg, more := args[0], args[1..];
      if !IsOption(arg) {
        CollectNoticed(cfg, arg);
        UntouchedWhen(cfg, more, unknown);
        if Collects(cfg) {
          ScanNoticed(cfg, args, unknown);
        } else {
          ScanKept(cfg, args, unknown, unknown);
        }
      } else if arg[1] == '-' {
        LongServes(cfg, arg[2..], more);
        UntouchedWhen(cfg, more, unknown);
        if LongServed(cfg, arg[2..]) {
          ScanNoticed(cfg, args, unknown);
        } else {
          ScanKept(cfg, args, unknown, unknown);
        }
      } else {
        LettersNoticed(cfg, arg[1..], more, false, false);
        UntouchedWhen(cfg, more, true);
        assert "-" + arg[1..] == arg;
        if AnyKnown(cfg, arg[1..]) {
          ScanNoticed(cfg, args, unknown);
        } else {
          ScanKept(cfg, args, unknown, true);
        }
      }
    }
  }

  /** Parsing leftovers again changes nothing exactly when they are inert. */
  lemma LeftoversFixedWhen(cfg: Config, args: seq<string>)
    requires cfg.ignoreUnknown && Parse(cfg, args).status.Done?
    ensures var kept := Parse(cfg, args).kept;
            Parse(cfg, kept) == Outcome(Done, [], kept) <==> kept == [] || Inert(cfg, kept[1..], false)
  {
    var kept := Parse(cfg, args).kept;
    if kept != [] {
      UntouchedWhen(cfg, kept[1..], false);
      var o := Scan(cfg, kept[1..], false, false);
      assert kept == [kept[0]] + kept[1..] && [] + o.events == o.events;
      if o.status.Done? && [kept[0]] + o.kept == kept {
        assert ([kept[0]] + o.kept)[1..] == o.kept;
      }
    }
  }

  // ----- command lines that leave an inert list

  predicate AnyValue(cfg: Config, letters: string) {
    exists l :: l in letters && TakesValue(cfg, l)
  }

  /**
   * No cluster leaves a dash in front of its unknown letters, and no value of a short option looks like
   * an option itself.
   */
  predicate Tame(cfg: Config, args: seq<string>) {
    forall i :: 0 <= i < |args| && IsCluster(args[i]) ==>
      && (Unrecognised(cfg, args[i][1..]) != [] ==> Unrecognised(cfg, args[i][1..])[0] != '-')
      && (AnyValue(cfg, args[i][1..]) && i + 1 < |args| ==> !IsOption(args[i + 1]))
  }

  lemma TameDrops(cfg: Config, args: seq<string>, k: nat)
    requires Tame(cfg, args) && k <= |args|
    ensures Tame(cfg, args[k..])
  {
    var rest := args[k..];
    forall i | 0 <= i < |rest| && IsCluster(rest[i])
      ensures (Unrecognised(cfg, rest[i][1..]) != [] ==> Unrecognised(cfg, rest[i][1..])[0] != '-')
      ensures AnyValue(cfg, rest[i][1..]) && i + 1 < |rest| ==> !IsOption(rest[i + 1])
    {
      assert rest[i] == args[k + i];
      assert i + 1 < |rest| ==> rest[i + 1] == args[k + i + 1];
    }
  }

  lemma {:induction false} TookAValue(cfg: Config, letters: string, rest: seq<string>, took: bool, parsed: bool)
    requires Letters(cfg, letters, rest, took, parsed).status.Done?
    ensures Letters(cfg, letters, rest, took, parsed).took ==> took || AnyValue(cfg, letters)
    decreases |letters|
  {
    if letters != [] {
      var t := Letter(cfg, letters[0], rest, took);
      LetterMeaning(cfg, letters[0], rest, took, rest, took);
      assert forall l :: l in letters <==> l == letters[0] || l in letters[1..];
      if t.parsed {
        TookAValue(cfg, letters[1..], rest, took || t.used == 1, true);
      } else if cfg.ignoreUnknown {
        TookAValue(cfg, letters[1..], rest, took, false);
      }
    }
  }

  lemma {:induction false} UnrecognisedUnknown(cfg: Config, letters: string)
    ensures !AnyKnown(cfg, Unrecognised(cfg, letters))
    ensures letters != [] && Unrecognised(cfg, letters) == [] ==> Known(cfg, letters[|letters| - 1])
  {
    if letters != [] {
      UnrecognisedUnknown(cfg, letters[1..]);
    }
  }

  lemma {:induction false} PlainInert(cfg: Config, args: seq<string>, unknown: bool)
    requires !Collects(cfg) && !AnyDashed(args)
    ensures Inert(cfg, args, unknown)
  {
    if args != [] {
      assert args[0] in args && forall a :: a in args[1..] ==> a in args;
      PlainInert(cfg, args[1..], unknown);
    }
  }

  /** What a separator leaves is inert for any later scan that has seen at least as many unknown clusters. */
  lemma SeparatorInert(cfg: Config, rest: seq<string>, unknown: bool, later: bool)
    requires rest != [] && rest[0] == "--" && (unknown ==> later)
    requires Scan(cfg, rest, unknown, false).status.Done?
    ensures Inert(cfg, Scan(cfg, rest, unknown, false).kept, later)
  {
    var tail := rest[1..];
    AfterSeparatorAll(cfg, tail, unknown);
    if !Collects(cfg) {
      var t := AfterSeparator(cfg, tail, unknown);
      if t.blocked {
        assert (["--"] + tail)[1..] == tail;
      } else {
        PlainInert(cfg, tail, later);
        assert [] + tail == tail;
      }
    }
  }

  /** The list left behind a cluster is inert if the rest is. */
  lemma ClusterInert(cfg: Config, letters: string, kept: seq<string>)
    requires var left := Unrecognised(cfg, letters); left != [] && left[0] != '-'
    requires Inert(cfg, kept, true)
    ensures forall later :: Inert(cfg, ["-" + Unrecognised(cfg, letters)] + kept, later)
  {
    var left := Unrecognised(cfg, letters);
    UnrecognisedUnknown(cfg, letters);
    var all := ["-" + left] + kept;
    assert all[0][1..] == left && all[1..] == kept && all[0][1] == left[0];
  }

  lemma ScanNext(cfg: Config, rest: seq<string>, unknown: bool, taken: bool)
    requires rest != [] && rest[0] != "--" && Scan(cfg, rest, unknown, taken).status.Done?
    ensures var t := Next(cfg, rest[0], rest[1..], unknown, taken);
            var o := Scan(cfg, rest[1 + t.used..], t.unknown, t.taken);
            t.status.Done? && o.status.Done? && Scan(cfg, rest, unknown, taken).kept == t.kept + o.kept
  {
  }

  /** An argument that is no cluster is kept only if it is inert itself. */
  lemma TurnInert(cfg: Config, arg: string, more: seq<string>, unknown: bool, taken: bool)
    requires cfg.ignoreUnknown && !IsCluster(arg) && Next(cfg, arg, more, unknown, taken).status.Done?
    ensures var t := Next(cfg, arg, more, unknown, taken);
            && t.unknown == unknown && !t.taken
            && (t.kept == [] ||
                (t.kept == [arg] && if IsOption(arg) then !LongServed(cfg, arg[2..]) else !Collects(cfg)))
  {
    CollectNoticed(cfg, arg);
    if IsOption(arg) {
      LongServes(cfg, arg[2..], more);
    }
  }

  lemma InertCons(cfg: Config, arg: string, kept: seq<string>, later: bool)
    requires arg != "--" && !IsCluster(arg) && Inert(cfg, kept, later)
    requires if IsOption(arg) then !LongServed(cfg, arg[2..]) else !Collects(cfg)
    ensures Inert(cfg, [arg] + kept, later)
  {
    assert ([arg] + kept)[0] == arg && ([arg] + kept)[1..] == kept;
  }

  lemma {:induction false} TameInert(cfg: Config, rest: seq<string>, unknown: bool, taken: bool, later: bool)
    requires cfg.ignoreUnknown && Tame(cfg, rest) && Scan(cfg, rest, unknown, taken).status.Done?
    requires (taken && rest != [] ==> !IsOption(rest[0])) && (unknown ==> later)
    ensures Inert(cfg, Scan(cfg, rest, unknown, taken).kept, later)
    decreases |rest|
  {
    if rest == [] {
    } else if rest[0] == "--" {
      SeparatorInert(cfg, rest, unknown, later);
    } else if IsCluster(rest[0]) {
      TameCluster(cfg, rest, unknown, later);
    } else {
      var t := Next(cfg, rest[0], rest[1..], unknown, taken);
      ScanNext(cfg, rest, unknown, taken);
      TurnInert(cfg, rest[0], rest[1..], unknown, taken);
      TameDrops(cfg, rest, 1 + t.used);
      TameInert(cfg, rest[1 + t.used..], unknown, false, later);
      var kept := Scan(cfg, rest[1 + t.used..], unknown, false).kept;
      if t.kept == [] {
        assert [] + kept == kept;
      } else {
        InertCons(cfg, rest[0], kept, later);
      }
    }
  }

  lemma {:induction false} TameCluster(cfg: Config, rest: seq<string>, unknown: bool, later: bool)
    requires cfg.ignoreUnknown && Tame(cfg, rest) && Scan(cfg, rest, unknown, false).status.Done?
    requires rest != [] && IsCluster(rest[0]) && (unknown ==> later)
    ensures Inert(cfg, Scan(cfg, rest, unknown, false).kept, later)
    decreases |rest|, 0
  {
    var letters, more := rest[0][1..], rest[1..];
    var left := Unrecognised(cfg, letters);
    assert rest[0] == "-" + letters;
    assert rest == ["-" + letters] + more;
    IgnoredCluster(cfg, letters, more, unknown, false);
    UnrecognisedUnknown(cfg, letters);
    var c := Letters(cfg, letters, more, false, false);
    TookAValue(cfg, letters, more, false, false);
    TameDrops(cfg, rest, 1);
    var unknown' := unknown || !Known(cfg, letters[|letters| - 1]);
    TameInert(cfg, more, unknown', c.took, left != [] || later);
    var kept := Scan(cfg, more, unknown', c.took).kept;
    if left == [] {
      assert [] + kept == kept;
    } else {
      ClusterInert(cfg, letters, kept);
    }
  }

  /** The leftovers of a tame command line are left alone by the next parse. */
  lemma TameLeftovers(cfg: Config, args: seq<string>)
    requires cfg.ignoreUnknown && Parse(cfg, args).status.Done? && (args != [] ==> Tame(cfg, args[1..]))
    ensures var kept := Parse(cfg, args).kept;
            Parse(cfg, kept) == Outcome(Done, [], kept)
  {
    LeftoversFixedWhen(cfg, args);
    if args != [] {
      TameInert(cfg, args[1..], false, false, false);
      var kept := Scan(cfg, args[1..], false, false).kept;
      assert ([args[0]] + kept)[1..] == kept;
    }
  }

  // ----- three command lines whose leftovers are not inert

  /** A program with the flags -k and --out and a file name -f. */
  function Sample(): Config {
    Config(Some(Group("", [Entry("key", Some('k'), false, ArgFlag(false), 0),
                           Entry("out", None, false, ArgFlag(false), 1),
                           Entry("file", Some('f'), false, ArgFilename, 0)])),
           [], true, (s: string) => Some(s), (s: string) => None)
  }

  lemma SampleKnows(cfg: Config)
    requires cfg == Sample()
    ensures forall l :: Known(cfg, l) <==> l == 'k' || l == 'f'
    ensures forall l :: TakesValue(cfg, l) <==> l == 'f'
    ensures !Collects(cfg) && LongServed(cfg, "out")
  {
    var main := MainEntries(cfg);
    var key, out, file := main[0], main[1], main[2];
    assert forall e :: e in main <==> e == key || e == out || e == file;
    assert key.short == Some('k') && out.short == None && file.short == Some('f');
    forall l ensures Claims(main, l) <==> l == 'k' || l == 'f' {
      assert l == 'k' ==> key in main;
      assert l == 'f' ==> file in main;
    }
    forall l ensures ValueIn(main, l) <==> l == 'f' {
      assert l == 'f' ==> file in main;
    }
    assert out in main && LongMatches(out, "out");
    assert key.long != [] && out.long != [] && file.long != [];
  }

  lemma SampleValue(cfg: Config, rest: seq<string>)
    requires cfg == Sample() && rest != []
    ensures Letters(cfg, "f", rest, false, false).status.Done? && Letters(cfg, "f", rest, false, false).took
  {
    SampleKnows(cfg);
    LetterMeaning(cfg, 'f', rest, false, rest, false);
    var main := MainEntries(cfg);
    var t := ShortEntry(cfg, main[2], 'f', rest, false, NotTaken);
    assert main[1..][0] == main[1] && main[1..][1..] == [main[2]] && [main[2]][1..] == [];
    assert ShortEntries(cfg, [main[2]], 'f', rest, false, NotTaken) == t;
    assert ShortEntries(cfg, main[1..], 'f', rest, false, NotTaken) == t;
    assert Letter(cfg, 'f', rest, false) == t;
    LettersOfOne(cfg, 'f', rest);
    assert "f" == ['f'];
  }

  lemma {:induction false} NoValueDone(cfg: Config, letters: string, rest: seq<string>, took: bool, parsed: bool)
    requires cfg.ignoreUnknown && !AnyValue(cfg, letters)
    ensures Letters(cfg, letters, rest, took, parsed).status.Done?
    ensures Letters(cfg, letters, rest, took, parsed).took == took
    decreases |letters|
  {
    if letters != [] {
      LetterMeaning(cfg, letters[0], rest, took, rest, took);
      assert forall l :: l in letters <==> l == letters[0] || l in letters[1..];
      NoValueDone(cfg, letters[1..], rest, took, Letter(cfg, letters[0], rest, took).parsed);
    }
  }

  /** One turn at a cluster, whatever came before. */
  lemma ClusterGoesOn(cfg: Config, letters: string, more: seq<string>, unknown: bool, taken: bool)
    requires cfg.ignoreUnknown && letters != [] && letters[0] != '-'
    requires Letters(cfg, letters, more, false, false).status.Done?
    ensures var c, left := Letters(cfg, letters, more, false, false), Unrecognised(cfg, letters);
            Scan(cfg, ["-" + letters] + more, unknown, taken)
            == Prepend(c.events, if taken || left == [] then [] else ["-" + left],
                       Scan(cfg, more, unknown || !Known(cfg, letters[|letters| - 1]), c.took))
  {
    var all := ["-" + letters] + more;
    assert all[1..] == more && all[0][1..] == letters && all[1 + 0..] == more;
    LettersUnknown(cfg, letters, more, false, false);
  }

  /** A list that is left over by a successful parse and changed by the next one. */
  predicate LeftButNotFixed(cfg: Config, args: seq<string>, kept: seq<string>) {
    && Parse(cfg, args).status.Done? && Parse(cfg, args).kept == kept
    && Parse(cfg, kept) != Outcome(Done, [], kept)
  }

  lemma NotInert(cfg: Config, program: string, rest: seq<string>, left: seq<string>)
    requires cfg.ignoreUnknown && Scan(cfg, rest, false, false).status.Done?
    requires Scan(cfg, rest, false, false).kept == left && !Inert(cfg, left, false)
    ensures LeftButNotFixed(cfg, [program] + rest, [program] + left)
  {
    ParseScans(cfg, program, rest);
    LeftoversFixedWhen(cfg, [program] + rest);
    assert ([program] + left)[1..] == left;
  }

  lemma {:induction false} AllUnrecognised(cfg: Config, letters: string)
    requires !AnyKnown(cfg, letters)
    ensures Unrecognised(cfg, letters) == letters
  {
    if letters != [] {
      assert letters[0] in letters && forall l :: l in letters[1..] ==> l in letters;
      AllUnrecognised(cfg, letters[1..]);
      assert [letters[0]] + letters[1..] == letters;
    }
  }

  /** A known flag, then a dash and unknown letters: the cluster becomes a long option. */
  lemma DashLeaves(cfg: Config, letters: string, name: string)
    requires cfg.ignoreUnknown && !AnyValue(cfg, letters) && LongServed(cfg, name) && name != ""
    requires |letters| > 1 && letters[0] != '-' && Known(cfg, letters[0])
    requires letters[1..] == "-" + name && !AnyKnown(cfg, letters[1..])
    ensures LeftButNotFixed(cfg, ["p"] + ["-" + letters], ["p"] + ["-" + ("-" + name)])
  {
    AllUnrecognised(cfg, letters[1..]);
    assert Unrecognised(cfg, letters) == [] + letters[1..] == letters[1..];
    ScanOneCluster(cfg, letters);
    OptionNotInert(cfg, "-" + ("-" + name), name);
    NotInert(cfg, "p", ["-" + letters], ["-" + ("-" + name)]);
  }

  lemma ScanOneCluster(cfg: Config, letters: string)
    requires cfg.ignoreUnknown && !AnyValue(cfg, letters) && letters != [] && letters[0] != '-'
    ensures var o, left := Scan(cfg, ["-" + letters], false, false), Unrecognised(cfg, letters);
            o.status.Done? && o.kept == if left == [] then [] else ["-" + left]
  {
    NoValueDone(cfg, letters, [], false, false);
    ClusterGoesOn(cfg, letters, [], false, false);
    assert ["-" + letters] + [] == ["-" + letters];
    var kept := if Unrecognised(cfg, letters) == [] then [] else ["-" + Unrecognised(cfg, letters)];
    assert kept + [] == kept;
  }

  lemma OptionNotInert(cfg: Config, arg: string, name: string)
    requires arg == "-" + ("-" + name) && name != "" && LongServed(cfg, name)
    ensures !Inert(cfg, [arg], false)
  {
    assert arg[2..] == name && arg[1] == '-' && |arg| > 2;
  }

  lemma ClusterNotInert(cfg: Config, arg: string, letters: string)
    requires arg == "-" + letters && letters != "" && letters[0] != '-' && AnyKnown(cfg, letters)
    ensures !Inert(cfg, [arg], false)
  {
    assert arg[1..] == letters && arg[1] == letters[0];
  }

  lemma SeparatorNotInert(cfg: Config, last: string)
    requires !Dashed(last)
    ensures !Inert(cfg, ["--", last], false)
  {
    assert ["--", last][1..] == [last];
  }

  /** -k-out leaves --out. */
  lemma DashLeavesOption(cfg: Config, letters: string)
    requires cfg == Sample() && letters == "k-out"
    ensures LeftButNotFixed(cfg, ["p"] + ["-" + letters], ["p"] + ["-" + ("-" + "out")])
  {
    SampleDash(cfg, letters);
    DashLeaves(cfg, letters, "out");
  }

  lemma SampleDash(cfg: Config, letters: string)
    requires cfg == Sample() && letters == "k-out"
    ensures cfg.ignoreUnknown && !AnyValue(cfg, letters) && LongServed(cfg, "out")
    ensures Known(cfg, letters[0]) && letters[1..] == "-" + "out" && !AnyKnown(cfg, letters[1..])
  {
    SampleKnows(cfg);
    assert letters[0] == 'k' && letters[1..] == "-" + "out";
    assert forall l :: l in letters[1..] ==> l != 'k' && l != 'f';
    assert forall l :: l in letters ==> l != 'f';
  }

  /** A cluster of known letters that takes the next argument, in front of it. */
  lemma AfterValue(cfg: Config, letters: string, rest: seq<string>)
    requires cfg.ignoreUnknown && letters != [] && letters[0] != '-' && Unrecognised(cfg, letters) == []
    requires Letters(cfg, letters, rest, false, false).status.Done? && Letters(cfg, letters, rest, false, false).took
    ensures var o, r := Scan(cfg, ["-" + letters] + rest, false, false), Scan(cfg, rest, false, true);
            o.status == r.status && (r.status.Done? ==> o.kept == r.kept)
  {
    ClusterGoesOn(cfg, letters, rest, false, false);
    UnrecognisedUnknown(cfg, letters);
    var r := Scan(cfg, rest, false, true);
    assert [] + r.kept == r.kept;
  }

  lemma SampleAfterValue(cfg: Config, letters: string, rest: seq<string>)
    requires cfg == Sample() && letters == "f" && rest != []
    ensures var o, r := Scan(cfg, ["-" + letters] + rest, false, false), Scan(cfg, rest, false, true);
            o.status == r.status && (r.status.Done? ==> o.kept == r.kept)
  {
    SampleKnows(cfg);
    SampleValue(cfg, rest);
    assert letters[1..] == [] && Unrecognised(cfg, letters) == [] + Unrecognised(cfg, letters[1..]);
    AfterValue(cfg, letters, rest);
  }

  lemma ScanSeparator(cfg: Config, last: string, unknown: bool, taken: bool)
    requires !Collects(cfg)
    ensures Scan(cfg, ["--", last], unknown, taken)
            == Outcome(Done, [], if !taken && (unknown || Dashed(last)) then ["--", last] else [last])
  {
    AfterSeparatorAll(cfg, [last], unknown);
    assert ["--", last][1..] == [last] && last in [last];
    assert ["--"] + [last] == ["--", last] && [] + [last] == [last];
  }

  /** A separator taken as a value is lost, and what it shielded is not: -f -- -k leaves -k. */
  lemma SeparatorAsValue(cfg: Config, letters: string, last: string)
    requires cfg == Sample() && letters == "f" && last == "-k"
    ensures LeftButNotFixed(cfg, ["p"] + (["-" + letters] + ["--", last]), ["p"] + [last])
  {
    SampleKnows(cfg);
    SampleAfterValue(cfg, letters, ["--", last]);
    ScanSeparator(cfg, last, false, true);
    assert last == "-" + "k" && 'k' in "k";
    ClusterNotInert(cfg, last, "k");
    NotInert(cfg, "p", ["-" + letters] + ["--", last], [last]);
  }

  lemma UnknownAsValue(cfg: Config, value: string, last: string)
    requires cfg.ignoreUnknown && !Collects(cfg) && value != [] && value[0] != '-'
    requires !AnyValue(cfg, value) && !Known(cfg, value[|value| - 1])
    ensures var o := Scan(cfg, ["-" + value] + ["--", last], false, true);
            o.status.Done? && o.kept == ["--", last]
  {
    var tail := ["--", last];
    NoValueDone(cfg, value, tail, false, false);
    ClusterGoesOn(cfg, value, tail, false, true);
    ScanSeparator(cfg, last, true, false);
    assert [] + tail == tail;
  }

  /** An unknown cluster taken as a value keeps a separator that is not needed again: -f -y -- a leaves -- a. */
  lemma ClusterAsValue(cfg: Config, letters: string, value: string, last: string)
    requires cfg == Sample() && letters == "f" && value == "y" && last == "a"
    ensures LeftButNotFixed(cfg, ["p"] + (["-" + letters] + (["-" + value] + ["--", last])), ["p"] + ["--", last])
  {
    SampleKnows(cfg);
    var tail := ["--", last];
    SampleAfterValue(cfg, letters, ["-" + value] + tail);
    UnknownAsValue(cfg, value, last);
    SeparatorNotInert(cfg, last);
    NotInert(cfg, "p", ["-" + letters] + (["-" + value] + tail), tail);
  }
}
