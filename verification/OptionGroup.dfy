/**
 * How the entries of a group come about
 * (Lab/sofsip-cli-0.16/src/replace_goption.c:1663-1692).
 */
module OptionGroup {
  import opened Common
  import opened OptionModel

  /** g_ascii_isprint. */
  predicate IsPrintable(c: char) {
    ' ' <= c <= '~'
  }

  predicate Usable(short: Option<char>) {
    short.Some? ==> short.value != '-' && IsPrintable(short.value)
  }

  /** No short name is a dash or a character that cannot be printed. */
  predicate WellNamed(entries: seq<Entry>) {
    forall e :: e in entries ==> Usable(e.short)
  }

  /** An entry as a group keeps it. */
  function Entered(e: Entry): (r: Entry)
    ensures Usable(r.short) && r.(short := e.short) == e
    ensures Usable(e.short) ==> r == e
    ensures !Usable(e.short) ==> r.short == None
  {
    if Usable(e.short) then e else e.(short := None)
  }

  /** A short name is usable from the blank to the tilde, except for the dash. */
  lemma UsableNames(c: char)
    ensures Usable(Some(c)) <==> 32 <= c as int <= 126 && c as int != 45
    ensures Usable(None)
  {
  }

  /** Every group of the program was filled by AddEntries. */
  predicate Built(cfg: Config) {
    && (cfg.main.Some? ==> WellNamed(cfg.main.value.entries))
    && (forall g :: g in cfg.groups ==> WellNamed(g.entries))
  }

  class OptionGroup {
    const name: string
    var entries: seq<Entry>

    constructor (name: string)
      ensures this.name == name && entries == [] && WellNamed(entries)
    {
      this.name, entries := name, [];
    }

    /**
     * g_option_group_add_entries: the entries are appended as they are, except that an unusable
     * short name is dropped.
     */
    method AddEntries(added: seq<Entry>)
      requires WellNamed(entries)
      modifies this
      ensures |entries| == |old(entries)| + |added| && old(entries) <= entries
      ensures forall k :: 0 <= k < |added| ==> entries[|old(entries)| + k] == Entered(added[k])
      ensures WellNamed(entries)
    {
      var n := |entries|;
      entries := entries + added;
      var i := n;
      while i < |entries|
        invariant n <= i <= |entries| == n + |added|
        invariant old(entries) <= entries && WellNamed(entries[..i])
        invariant forall k :: i - n <= k < |added| ==> entries[n + k] == added[k]
        invariant forall k :: 0 <= k < i - n ==> entries[n + k] == Entered(added[k])
      {
        var short := entries[i].short;
        assert entries[n + (i - n)] == added[i - n];
        if short.Some? && (short.value == '-' || !IsPrintable(short.value)) {
          entries := entries[i := entries[i].(short := None)];
        }
        assert entries[..i + 1] == entries[..i] + [entries[i]];
        i := i + 1;
      }
      assert entries[..i] == entries;
    }
  }
}
