/**
 * Splitting what was read from the command pipe into commands
 * (RestCommClient/Classes/CliInterface/ssc_input.cpp:104-147).
 */
module CommandInput {
  import opened Common
  import opened Text

  /** The commands dispatched for the input `s`: its tokens up to the first empty one. */
  function Commands(s: string): seq<string> {
    var k := Find(s, '$');
    if k == 0 then []
    else if k == |s| then [s]
    else [s[..k]] + Commands(s[k + 1..])
  }

  /** Walks to the end of the token that starts at `ptr`. */
  method TokenEnd(buf: array<char>, ptr: nat, end: nat) returns (p: nat)
    requires ptr <= end < buf.Length && buf[end] == '\0' && '\0' !in buf[ptr..end]
    ensures ptr <= p <= end && p - ptr == Find(buf[ptr..end], '$')
  {
    p := ptr;
    while buf[p] != '\0' && buf[p] != '$'
      invariant ptr <= p <= end && '$' !in buf[ptr..p]
      decreases end - p
    {
      assert buf[ptr..p + 1] == buf[ptr..p] + [buf[p]];
      p := p + 1;
    }
    assert p < end ==> buf[ptr..end][p - ptr] == buf[p];
    FindIn(buf[ptr..p], buf[p..end], '$');
    assert buf[ptr..p] + buf[p..end] == buf[ptr..end];
  }

  /**
   * strsep: ends the token starting at `ptr` in place and returns where the next one starts, -1
   * when the string is used up.
   */
  method StrSep(buf: array<char>, ptr: nat, end: nat) returns (token: string, next: int)
    requires ptr <= end < buf.Length && buf[end] == '\0' && '\0' !in buf[ptr..end]
    modifies buf
    ensures var s := old(buf[ptr..end]);
            var k := Find(s, '$');
            && token == s[..k]
            && next == (if k == |s| then -1 else ptr + k + 1)
            && (next != -1 ==> next <= end && buf[next..end] == s[k + 1..])
    ensures buf[end] == '\0'
    ensures forall k :: 0 <= k < buf.Length ==> buf[k] == if k == next - 1 then '\0' else old(buf[k])
  {
    var p := TokenEnd(buf, ptr, end);
    token, next := buf[ptr..p], -1;
    assert token == buf[ptr..end][..p - ptr];
    if p < end {
      assert buf[p + 1..end] == buf[ptr..end][p - ptr + 1..];
      next := p + 1;
      buf[p] := '\0';
    }
  }

  /** ssc_input_read_char after a read of `n` characters that contain a '$' and no NUL. */
  method ReadCommands(buf: array<char>, n: nat) returns (dispatched: seq<string>)
    requires 0 < n < buf.Length && '\0' !in buf[..n] && '$' in buf[..n]
    modifies buf
    ensures dispatched == Commands(old(buf[..n]))
  {
    buf[n] := '\0';
    dispatched := [];
    var ptr := 0;
    ghost var s := buf[..n];
    assert s == buf[0..n] && s == old(buf[..n]);
    while ptr != -1
      invariant -1 <= ptr <= n && buf[n] == '\0'
      invariant ptr != -1 ==> buf[ptr..n] == s && '\0' !in s && Commands(old(buf[..n])) == dispatched + Commands(s)
      invariant ptr == -1 ==> Commands(old(buf[..n])) == dispatched
      decreases if ptr == -1 then -1 else n - ptr
    {
      CommandsStep(s, dispatched);
      var token;
      token, ptr := StrSep(buf, ptr, n);
      if token == "" {
        break;
      }
      assert ptr == -1 ==> token == s;
      dispatched := dispatched + [token];
      s := if ptr == -1 then [] else s[Find(s, '$') + 1..];
    }
  }

  lemma CommandsStep(s: string, dispatched: seq<string>)
    ensures var k := Find(s, '$');
            && (k == 0 ==> dispatched + Commands(s) == dispatched)
            && (0 < k == |s| ==> dispatched + Commands(s) == dispatched + [s])
            && (0 < k < |s| ==> dispatched + Commands(s) == dispatched + [s[..k]] + Commands(s[k + 1..]))
  {
    var k := Find(s, '$');
    if 0 < k < |s| {
      Reassociate(dispatched, [s[..k]], Commands(s[k + 1..]));
    }
  }

  function Framed(cs: seq<string>): string {
    if cs == [] then "" else cs[0] + "$" + Framed(cs[1..])
  }

  /** A command in front of a terminator. */
  lemma FirstCommand(c: string, rest: string)
    requires c != "" && '$' !in c
    ensures Commands(c + ("$" + rest)) == [c] + Commands(rest)
  {
    var s := c + ("$" + rest);
    FindIn(c, "$" + rest, '$');
    assert s[..|c|] == c && s[|c| + 1..] == rest;
    CommandsAt(s, |c|);
  }

  lemma CommandsAt(s: string, k: nat)
    requires 0 < k < |s| && Find(s, '$') == k
    ensures Commands(s) == [s[..k]] + Commands(s[k + 1..])
  {
  }

  /** An unfinished last command is dispatched as it stands, an empty one hides everything behind it. */
  lemma LastCommand(tail: string)
    ensures '$' !in tail ==> Commands(tail) == if tail == "" then [] else [tail]
    ensures tail != "" && tail[0] == '$' ==> Commands(tail) == []
  {
    if '$' !in tail {
      FindIn(tail, [], '$');
      assert tail + [] == tail;
    }
  }

  lemma FramedStep(cs: seq<string>, tail: string)
    requires cs != []
    ensures Framed(cs) + tail == cs[0] + ("$" + (Framed(cs[1..]) + tail))
  {
  }

  /** Commands written one after another, each ended by '$', are dispatched in order. */
  lemma {:induction false} FramedCommands(cs: seq<string>, tail: string)
    requires forall c :: c in cs ==> c != "" && '$' !in c
    ensures Commands(Framed(cs) + tail) == cs + Commands(tail)
    decreases |cs|
  {
    if cs == [] {
      assert Framed(cs) + tail == tail && cs + Commands(tail) == Commands(tail);
    } else {
      var c, more := cs[0], cs[1..];
      assert c in cs && forall d :: d in more ==> d in cs;
      FramedStep(cs, tail);
      FirstCommand(c, Framed(more) + tail);
      FramedCommands(more, tail);
      Reassociate([c], more, Commands(tail));
      assert [c] + more == cs;
    }
  }
}
