/**
 * ICE candidates in SDP (Lab/sofsip-cli-0.16/src/ssc_media_nice.c:475-511, 544-586 and 660-787):
 * the candidate attribute of section 15.1 of RFC 5245, printed by g_strdup_printf and read back
 * by sscanf.
 */
module Candidates {
  import opened Common
  import opened Text
  import Decimal

  const RTP: nat := 1
  const RTCP: nat := 2

  datatype CandidateType = Host | ServerReflexive | PeerReflexive | Relayed

  datatype Candidate = Candidate(
    foundation: string, component: nat, priority: nat, address: string, port: nat, kind: CandidateType)

  datatype Attribute = Attribute(name: string, value: string)

  function TypeName(t: CandidateType): string {
    match t
    case Host => "host"
    case ServerReflexive => "srflx"
    case PeerReflexive => "prflx"
    case Relayed => "relay"
  }

  /** priv_parse_nice_type; for other words the C function returns no value at all, here `other`. */
  function ParseType(s: string, other: CandidateType): CandidateType {
    if s == "host" then Host
    else if s == "srflx" then ServerReflexive
    else if s == "prflx" then PeerReflexive
    else if s == "relay" then Relayed
    else other
  }

  // ----- printing

  /** The attribute value "%s %u UDP %u %s %u typ %s". */
  function Line(c: Candidate, component: nat): string {
    c.foundation + (" " + (Decimal.Print(component) + (" " + ("UDP" + (" " + (Decimal.Print(c.priority) + (" " +
      (c.address + (" " + (Decimal.Print(c.port) + (" " + ("typ" + (" " + TypeName(c.kind))))))))))))))
  }

  function Attributes(cands: seq<Candidate>, component: nat): (r: seq<Attribute>)
    ensures |r| == |cands| && forall i :: 0 <= i < |cands| ==> r[i] == Attribute("candidate", Line(cands[i], component))
  {
    seq(|cands|, i requires 0 <= i < |cands| => Attribute("candidate", Line(cands[i], component)))
  }

  function AttributeText(a: Attribute): string {
    "a=" + a.name + ":" + a.value + "\r\n"
  }

  /** Attributes as they stand in the session description. */
  function Printed(attrs: seq<Attribute>): string {
    if attrs == [] then "" else Printed(attrs[..|attrs| - 1]) + AttributeText(attrs[|attrs| - 1])
  }

  lemma TextNext(text: string, attrs: seq<Attribute>, i: nat)
    requires i < |attrs|
    ensures text + Printed(attrs[..i + 1]) == text + Printed(attrs[..i]) + AttributeText(attrs[i])
  {
    assert attrs[..i + 1][..i] == attrs[..i];
    Reassociate(text, Printed(attrs[..i]), AttributeText(attrs[i]));
  }

  /** priv_add_candidate_to_sdp; the first foundation seen is remembered. */
  method AddCandidates(cands: seq<Candidate>, component: nat, text: string, known: Option<string>)
    returns (result: string, foundation: Option<string>)
    ensures result == text + Printed(Attributes(cands, component))
    ensures foundation == if known.Some? || cands == [] then known else Some(cands[0].foundation)
  {
    result, foundation := text, known;
    var attrs := Attributes(cands, component);
    var i := 0;
    assert attrs[..0] == [] && text + "" == text;
    while i < |cands|
      invariant i <= |cands| && result == text + Printed(attrs[..i])
      invariant foundation == if known.Some? || i == 0 then known else Some(cands[0].foundation)
    {
      TextNext(text, attrs, i);
      result := result + AttributeText(attrs[i]);
      if foundation.None? {
        foundation := Some(cands[i].foundation);
      }
      i := i + 1;
    }
    assert attrs[..i] == attrs;
  }

  // ----- sscanf

  datatype Read<T> = Stuck | Got(value: T, rest: string)

  predicate IsWord(s: string) {
    s != [] && forall i :: 0 <= i < |s| ==> !IsBlank(s[i])
  }

  function WordLength(s: string): (k: nat)
    ensures k <= |s|
  {
    if s == [] || IsBlank(s[0]) then 0 else 1 + WordLength(s[1..])
  }

  /** %as */
  function ReadWord(s: string): Read<string> {
    var t := SkipBlanks(s);
    var k := WordLength(t);
    if k == 0 then Stuck else Got(t[..k], t[k..])
  }

  const ULONG_RANGE: nat := 0x1_0000_0000_0000_0000

  /** The value strtoul makes of a sign and digits: out of range is the largest value, minus wraps round. */
  function UnsignedLong(negative: bool, n: nat): nat {
    if n >= ULONG_RANGE then ULONG_RANGE - 1
    else if negative then (ULONG_RANGE - n) % ULONG_RANGE
    else n
  }

  /** %lu */
  function ReadNumber(s: string): Read<nat> {
    var t := SkipBlanks(s);
    var digits := if t != [] && (t[0] == '-' || t[0] == '+') then t[1..] else t;
    var k := Decimal.Span(digits);
    if k == 0 then Stuck else Got(UnsignedLong(t[0] == '-', Decimal.Value(digits[..k])), digits[k..])
  }

  /** A blank and literal text in the format. */
  function ReadText(s: string, text: string): Read<string> {
    var t := SkipBlanks(s);
    if text <= t then Got(text, t[|text|..]) else Stuck
  }

  datatype Fields = Fields(foundation: string, component: nat, transport: string, priority: nat,
                           address: string, port: nat, kind: string)

  /** "%as %lu %as": foundation, component and transport. */
  function ScanHead(s: string): Read<(string, nat, string)> {
    var foundation := ReadWord(s);
    if foundation.Stuck? then Stuck else
    var component := ReadNumber(foundation.rest);
    if component.Stuck? then Stuck else
    var transport := ReadWord(component.rest);
    if transport.Stuck? then Stuck else Got((foundation.value, component.value, transport.value), transport.rest)
  }

  /** "%lu %as": priority and address. */
  function ScanMiddle(s: string): Read<(nat, string)> {
    var priority := ReadNumber(s);
    if priority.Stuck? then Stuck else
    var address := ReadWord(priority.rest);
    if address.Stuck? then Stuck else Got((priority.value, address.value), address.rest)
  }

  /** "%lu typ %as": port and type. */
  function ScanEnd(s: string): Read<(nat, string)> {
    var port := ReadNumber(s);
    if port.Stuck? then Stuck else
    var typ := ReadText(port.rest, "typ");
    if typ.Stuck? then Stuck else
    var kind := ReadWord(typ.rest);
    if kind.Stuck? then Stuck else Got((port.value, kind.value), kind.rest)
  }

  /** sscanf with "%as %lu %as %lu %as %lu typ %as"; None when fewer than seven conversions succeed. */
  function ScanLine(s: string): Option<Fields> {
    var head := ScanHead(s);
    if head.Stuck? then None else
    var middle := ScanMiddle(head.rest);
    if middle.Stuck? then None else
    var end := ScanEnd(middle.rest);
    if end.Stuck? then None else
    Some(Fields(head.value.0, head.value.1, head.value.2, middle.value.0, middle.value.1, end.value.0, end.value.1))
  }

  // ----- parsing

  /** The two limits that are libnice's, and what an unknown type word turns into. */
  datatype Limits = Limits(maxFoundation: nat, other: CandidateType)

  function Truncate(s: string, n: nat): string {
    if |s| <= n then s else s[..n]
  }

  /** The candidate that scanned fields describe, if all seven are there and it runs over UDP. */
  function Interpret(f: Option<Fields>, lim: Limits): Option<Candidate> {
    if f.None? || f.value.transport != "UDP" then None
    else Some(Candidate(Truncate(f.value.foundation, lim.maxFoundation), f.value.component,
                        f.value.priority % 0x1_0000_0000, f.value.address, f.value.port % 0x1_0000,
                        ParseType(f.value.kind, lim.other)))
  }

  function Result(a: Attribute, lim: Limits): Option<Candidate> {
    if a.name == "candidate" then Interpret(ScanLine(a.value), lim) else None
  }

  /** How attributes are read, as a value: the laws about lists hold for any such function. */
  type Reader = Attribute -> Option<Candidate>

  function ReaderFor(lim: Limits): Reader {
    a => Result(a, lim)
  }

  function Results(read: Reader, attrs: seq<Attribute>): (r: seq<Option<Candidate>>)
    ensures |r| == |attrs| && forall i :: 0 <= i < |attrs| ==> r[i] == read(attrs[i])
  {
    seq(|attrs|, i requires 0 <= i < |attrs| => read(attrs[i]))
  }

  /** The candidates found for one component, in order. */
  function Select(results: seq<Option<Candidate>>, component: nat): seq<Candidate> {
    if results == [] then []
    else
      var l := |results| - 1;
      Select(results[..l], component)
      + if results[l].Some? && results[l].value.component == component then [results[l].value] else []
  }

  function Parsed(read: Reader, attrs: seq<Attribute>, component: nat): seq<Candidate> {
    Select(Results(read, attrs), component)
  }

  /** The last attribute of a name, as the loop leaves it in a variable. */
  function LastValue(attrs: seq<Attribute>, name: string): Option<string> {
    if attrs == [] then None
    else
      var l := |attrs| - 1;
      if attrs[l].name == name then Some(attrs[l].value) else LastValue(attrs[..l], name)
  }

  /** What the remote description offers, as far as it is used. */
  datatype Remote = Remote(connection: Option<string>, port: nat, attrs: seq<Attribute>)

  /** What is handed to the ICE agent. */
  datatype Offer = Offer(rtp: seq<Candidate>, rtcp: seq<Candidate>, credentials: Option<(string, string)>,
                         iceMode: bool)

  /** What the attributes read so far amount to. */
  datatype Found = Found(rtp: seq<Candidate>, rtcp: seq<Candidate>, ufrag: Option<string>, password: Option<string>)

  function Picked(c: Option<Candidate>, component: nat): seq<Candidate> {
    if c.Some? && c.value.component == component then [c.value] else []
  }

  /** `read` is how attributes are read under these limits. */
  ghost predicate Reads(read: Reader, lim: Limits) {
    forall k :: OnDemand(0, k) ==> read == ReaderFor(lim)
  }

  /** One turn of the attribute loop. */
  method ReadAttribute(attr: Attribute, lim: Limits, f: Found, ghost read: Reader) returns (r: Found)
    requires Reads(read, lim)
    ensures r.rtp == f.rtp + Picked(read(attr), RTP) && r.rtcp == f.rtcp + Picked(read(attr), RTCP)
    ensures r.ufrag == if attr.name == "ice-ufrag" then Some(attr.value) else f.ufrag
    ensures r.password == if attr.name == "ice-pwd" then Some(attr.value) else f.password
  {
    r := f;
    if attr.name == "candidate" {
      assert OnDemand(0, 0);
      var c := Interpret(ScanLine(attr.value), lim);
      r := Sort(c, f);
    } else {
      assert read(attr) == None by { assert OnDemand(0, 0); }
      assert f.rtp + [] == f.rtp && f.rtcp + [] == f.rtcp;
      if attr.name == "ice-pwd" {
        r := r.(password := Some(attr.value));
      } else if attr.name == "ice-ufrag" {
        r := r.(ufrag := Some(attr.value));
      }
    }
  }

  /** A candidate goes to the list of its component. */
  method Sort(c: Option<Candidate>, f: Found) returns (r: Found)
    ensures r == f.(rtp := f.rtp + Picked(c, RTP), rtcp := f.rtcp + Picked(c, RTCP))
  {
    r := f;
    assert f.rtp + [] == f.rtp && f.rtcp + [] == f.rtcp;
    if c.Some? {
      if c.value.component == RTP {
        r := r.(rtp := r.rtp + [c.value]);
      } else if c.value.component == RTCP {
        r := r.(rtcp := r.rtcp + [c.value]);
      }
    }
  }

  /** The attribute loop. */
  method ReadAttributes(attrs: seq<Attribute>, lim: Limits, ghost read: Reader) returns (f: Found)
    requires Reads(read, lim)
    ensures f.rtp == Parsed(read, attrs, RTP) && f.rtcp == Parsed(read, attrs, RTCP)
    ensures f.ufrag == LastValue(attrs, "ice-ufrag") && f.password == LastValue(attrs, "ice-pwd")
  {
    f := Found([], [], None, None);
    var i := 0;
    while i < |attrs|
      invariant i <= |attrs|
      invariant f.rtp == Parsed(read, attrs[..i], RTP) && f.rtcp == Parsed(read, attrs[..i], RTCP)
      invariant f.ufrag == LastValue(attrs[..i], "ice-ufrag") && f.password == LastValue(attrs[..i], "ice-pwd")
    {
      ParsedNext(read, attrs, i);
      LastNext(attrs, i, "ice-ufrag");
      LastNext(attrs, i, "ice-pwd");
      f := ReadAttribute(attrs[i], lim, f, read);
      i := i + 1;
    }
    assert attrs[..i] == attrs;
  }

  lemma LastNext(attrs: seq<Attribute>, i: nat, name: string)
    requires i < |attrs|
    ensures LastValue(attrs[..i + 1], name)
            == if attrs[i].name == name then Some(attrs[i].value) else LastValue(attrs[..i], name)
  {
    assert attrs[..i + 1][..i] == attrs[..i];
  }

  /** priv_set_remote_sdp_candidates. */
  method SetRemoteCandidates(remote: Remote, lim: Limits) returns (offer: Option<Offer>)
    ensures offer.None? <==> remote.connection.None? || remote.port == 0
    ensures offer.Some? ==>
              var rtp, rtcp := Parsed(ReaderFor(lim), remote.attrs, 1), Parsed(ReaderFor(lim), remote.attrs, 2);
              && offer.value.iceMode == (rtp != [])
              && offer.value.rtp == (if rtp != [] then rtp
                                     else [Candidate("1", 1, 1, remote.connection.value, remote.port, Host)])
              && offer.value.rtcp == rtcp
              && (offer.value.credentials.Some? <==>
                    LastValue(remote.attrs, "ice-ufrag").Some? && LastValue(remote.attrs, "ice-pwd").Some?)
              && (offer.value.credentials.Some? ==>
                    offer.value.credentials.value
                    == (LastValue(remote.attrs, "ice-ufrag").value, LastValue(remote.attrs, "ice-pwd").value))
    ensures offer.Some? && AllIdle(remote.attrs) ==>
              && offer.value.rtp == [Candidate("1", 1, 1, remote.connection.value, remote.port, Host)]
              && offer.value.rtcp == [] && !offer.value.iceMode
  {
    if remote.connection.None? || remote.port == 0 {
      return None;
    }
    var f := ReadAttributes(remote.attrs, lim, ReaderFor(lim));
    var credentials := if f.ufrag.Some? && f.password.Some? then Some((f.ufrag.value, f.password.value)) else None;
    var rtp, iceMode := f.rtp, true;
    if rtp == [] {
      iceMode := false;
      rtp := [Candidate("1", RTP, 1, remote.connection.value, remote.port, Host)];
    }
    if AllIdle(remote.attrs) {
      IdleAddsNothing(remote.attrs, RTP, lim);
      IdleAddsNothing(remote.attrs, RTCP, lim);
    }
    offer := Some(Offer(rtp, f.rtcp, credentials, iceMode));
  }

  // ----- laws

  /** Candidates the printer can write so that the scanner reads them back. */
  predicate Printable(c: Candidate, component: nat, lim: Limits) {
    && IsWord(c.foundation) && |c.foundation| < lim.maxFoundation && c.component == component
    && c.priority < 0x1_0000_0000 && IsWord(c.address) && c.port < 0x1_0000
  }

  lemma {:induction false} WordEnds(w: string, rest: string)
    requires (forall i :: 0 <= i < |w| ==> !IsBlank(w[i])) && (rest == [] || IsBlank(rest[0]))
    ensures WordLength(w + rest) == |w|
  {
    if w == [] {
      assert w + rest == rest;
    } else {
      assert (w + rest)[1..] == w[1..] + rest;
      WordEnds(w[1..], rest);
    }
  }

  lemma SkipOne(s: string)
    requires s != [] && !IsBlank(s[0])
    ensures SkipBlanks(" " + s) == s && SkipBlanks(s) == s
  {
    assert (" " + s)[1..] == s;
  }

  /** A word after at most one blank, followed by a blank or nothing. */
  lemma WordReads(w: string, rest: string)
    requires IsWord(w) && (rest == [] || IsBlank(rest[0]))
    ensures ReadWord(w + rest) == Got(w, rest) && ReadWord(" " + (w + rest)) == Got(w, rest)
  {
    var s := w + rest;
    SkipOne(s);
    WordEnds(w, rest);
    assert s[..|w|] == w && s[|w|..] == rest;
  }

  lemma NumberReads(n: nat, rest: string)
    requires n < ULONG_RANGE && (rest == [] || !Decimal.IsDigit(rest[0]))
    ensures ReadNumber(" " + (Decimal.Print(n) + rest)) == Got(n, rest)
  {
    var digits := Decimal.Print(n);
    Decimal.PrintRoundTrip(n);
    var s := digits + rest;
    assert s[0] == digits[0] && Decimal.IsDigit(digits[0]);
    SkipOne(s);
    Decimal.SpanOfDigits(digits, rest);
    assert s[..|digits|] == digits && s[|digits|..] == rest;
  }

  lemma TextReads(rest: string)
    ensures ReadText(" " + ("typ" + rest), "typ") == Got("typ", rest)
  {
    var s := "typ" + rest;
    SkipOne(s);
    assert s[..3] == "typ" && s[3..] == rest;
  }

  lemma TypeReads(t: CandidateType, other: CandidateType)
    ensures IsWord(TypeName(t)) && ParseType(TypeName(t), other) == t
  {
    assert "host"[0] != "relay"[0] && "srflx"[0] != "prflx"[0] && "srflx"[0] != "relay"[0] && "prflx"[0] != "relay"[0];
    assert |"host"| == 4 && |"srflx"| == 5;
  }

  lemma HeadScans(foundation: string, component: nat, transport: string, rest: string)
    requires IsWord(foundation) && component < ULONG_RANGE && IsWord(transport) && (rest == [] || IsBlank(rest[0]))
    ensures ScanHead(foundation + (" " + (Decimal.Print(component) + (" " + (transport + rest)))))
            == Got((foundation, component, transport), rest)
  {
    var tail := " " + (transport + rest);
    WordReads(foundation, " " + (Decimal.Print(component) + tail));
    NumberReads(component, tail);
    WordReads(transport, rest);
  }

  lemma MiddleScans(priority: nat, address: string, rest: string)
    requires priority < ULONG_RANGE && IsWord(address) && (rest == [] || IsBlank(rest[0]))
    ensures ScanMiddle(" " + (Decimal.Print(priority) + (" " + (address + rest)))) == Got((priority, address), rest)
  {
    NumberReads(priority, " " + (address + rest));
    WordReads(address, rest);
  }

  lemma EndScans(port: nat, kind: string)
    requires port < ULONG_RANGE && IsWord(kind)
    ensures ScanEnd(" " + (Decimal.Print(port) + (" " + ("typ" + (" " + kind))))) == Got((port, kind), [])
  {
    NumberReads(port, " " + ("typ" + (" " + kind)));
    TextReads(" " + kind);
    assert kind + [] == kind;
    WordReads(kind, []);
  }

  /** One line: what is scanned from a printed candidate. */
  lemma LineScans(c: Candidate, component: nat)
    requires IsWord(c.foundation) && IsWord(c.address) && component < ULONG_RANGE
    requires c.priority < ULONG_RANGE && c.port < ULONG_RANGE
    ensures ScanLine(Line(c, component))
            == Some(Fields(c.foundation, component, "UDP", c.priority, c.address, c.port, TypeName(c.kind)))
  {
    var kind := TypeName(c.kind);
    TypeReads(c.kind, c.kind);
    var end := " " + (Decimal.Print(c.port) + (" " + ("typ" + (" " + kind))));
    var middle := " " + (Decimal.Print(c.priority) + (" " + (c.address + end)));
    HeadScans(c.foundation, component, "UDP", middle);
    MiddleScans(c.priority, c.address, end);
    EndScans(c.port, kind);
  }

  lemma LineParses(c: Candidate, component: nat, lim: Limits)
    requires Printable(c, component, lim) && component < ULONG_RANGE
    ensures Result(Attribute("candidate", Line(c, component)), lim) == Some(c)
  {
    LineScans(c, component);
    PrintedFields(c, component, lim);
  }

  lemma PrintedFields(c: Candidate, component: nat, lim: Limits)
    requires Printable(c, component, lim)
    ensures Interpret(Some(Fields(c.foundation, component, "UDP", c.priority, c.address, c.port, TypeName(c.kind))),
                      lim)
            == Some(c)
  {
    TypeReads(c.kind, lim.other);
  }

  /** One more attribute. */
  lemma ParsedNext(read: Reader, attrs: seq<Attribute>, i: nat)
    requires i < |attrs|
    ensures forall component ::
              Parsed(read, attrs[..i + 1], component)
              == Parsed(read, attrs[..i], component) + Picked(read(attrs[i]), component)
  {
    assert Results(read, attrs[..i + 1])[..i] == Results(read, attrs[..i]);
  }

  lemma {:induction false} SelectAppend(a: seq<Option<Candidate>>, b: seq<Option<Candidate>>, component: nat)
    ensures Select(a + b, component) == Select(a, component) + Select(b, component)
  {
    if b == [] {
      assert a + b == a;
    } else {
      var l := |b| - 1;
      assert (a + b)[..|a + b| - 1] == a + b[..l];
      SelectAppend(a, b[..l], component);
    }
  }

  lemma ParsedAppend(read: Reader, a: seq<Attribute>, b: seq<Attribute>, component: nat)
    ensures Parsed(read, a + b, component) == Parsed(read, a, component) + Parsed(read, b, component)
  {
    assert Results(read, a + b) == Results(read, a) + Results(read, b);
    SelectAppend(Results(read, a), Results(read, b), component);
  }

  lemma {:induction false} SelectAll(results: seq<Option<Candidate>>, cands: seq<Candidate>, component: nat,
                                     wanted: nat)
    requires |results| == |cands|
    requires forall i :: 0 <= i < |cands| ==> results[i] == Some(cands[i]) && cands[i].component == component
    ensures Select(results, wanted) == if wanted == component then cands else []
  {
    if cands != [] {
      var l := |cands| - 1;
      SelectAll(results[..l], cands[..l], component, wanted);
      assert cands == cands[..l] + [cands[l]];
    }
  }

  lemma AttributesParse(cands: seq<Candidate>, component: nat, wanted: nat, lim: Limits)
    requires component < ULONG_RANGE && forall c :: c in cands ==> Printable(c, component, lim)
    ensures Parsed(ReaderFor(lim), Attributes(cands, component), wanted) == if wanted == component then cands else []
  {
    var results := Results(ReaderFor(lim), Attributes(cands, component));
    forall i | 0 <= i < |cands|
      ensures results[i] == Some(cands[i]) && cands[i].component == component
    {
      LineParses(cands[i], component, lim);
    }
    SelectAll(results, cands, component, wanted);
  }

  /** Attributes that add nothing: other names, other transports, too few tokens, other components. */
  predicate Idle(a: Attribute) {
    || a.name != "candidate"
    || ScanLine(a.value).None?
    || ScanLine(a.value).value.transport != "UDP"
    || (ScanLine(a.value).value.component != RTP && ScanLine(a.value).value.component != RTCP)
  }

  predicate AllIdle(attrs: seq<Attribute>) {
    forall i :: 0 <= i < |attrs| ==> Idle(attrs[i])
  }

  lemma IdleAddsNothing(attrs: seq<Attribute>, component: nat, lim: Limits)
    requires (component == RTP || component == RTCP) && AllIdle(attrs)
    ensures Parsed(ReaderFor(lim), attrs, component) == []
  {
    var results := Results(ReaderFor(lim), attrs);
    forall i | 0 <= i < |attrs|
      ensures results[i].Some? ==> results[i].value.component != component
    {
      assert Idle(attrs[i]);
    }
    SelectNone(results, component);
  }

  lemma {:induction false} SelectNone(results: seq<Option<Candidate>>, component: nat)
    requires forall i :: 0 <= i < |results| && results[i].Some? ==> results[i].value.component != component
    ensures Select(results, component) == []
  {
    if results != [] {
      SelectNone(results[..|results| - 1], component);
    }
  }

  /**
   * Printing the candidates of both components and parsing the attributes yields the two lists in
   * order, whatever idle attributes stand around them.
   */
  lemma CandidateRoundTrip(before: seq<Attribute>, rtp: seq<Candidate>, between: seq<Attribute>,
                           rtcp: seq<Candidate>, after: seq<Attribute>, lim: Limits)
    requires forall c :: c in rtp ==> Printable(c, RTP, lim)
    requires forall c :: c in rtcp ==> Printable(c, RTCP, lim)
    requires AllIdle(before) && AllIdle(between) && AllIdle(after)
    ensures var attrs := before + Attributes(rtp, RTP) + between + Attributes(rtcp, RTCP) + after;
            Parsed(ReaderFor(lim), attrs, RTP) == rtp && Parsed(ReaderFor(lim), attrs, RTCP) == rtcp
  {
    ComponentRoundTrip(before, rtp, between, rtcp, after, RTP, lim);
    ComponentRoundTrip(before, rtp, between, rtcp, after, RTCP, lim);
  }

  lemma ComponentRoundTrip(before: seq<Attribute>, rtp: seq<Candidate>, between: seq<Attribute>,
                           rtcp: seq<Candidate>, after: seq<Attribute>, component: nat, lim: Limits)
    requires (component == RTP || component == RTCP) && AllIdle(before) && AllIdle(between) && AllIdle(after)
    requires forall c :: c in rtp ==> Printable(c, RTP, lim)
    requires forall c :: c in rtcp ==> Printable(c, RTCP, lim)
    ensures Parsed(ReaderFor(lim), before + Attributes(rtp, RTP) + between + Attributes(rtcp, RTCP) + after, component)
            == if component == RTP then rtp else rtcp
  {
    var read := ReaderFor(lim);
    IdleAddsNothing(before, component, lim);
    IdleAddsNothing(between, component, lim);
    IdleAddsNothing(after, component, lim);
    AttributesParse(rtp, RTP, component, lim);
    AttributesParse(rtcp, RTCP, component, lim);
    ParsedAround(read, before, Attributes(rtp, RTP), between, Attributes(rtcp, RTCP), after, component,
                 if component == RTP then rtp else rtcp);
  }

  /** Attributes that contribute nothing can be left out. */
  lemma ParsedAround(read: Reader, a: seq<Attribute>, b: seq<Attribute>, c: seq<Attribute>, d: seq<Attribute>,
                     e: seq<Attribute>, component: nat, found: seq<Candidate>)
    requires Parsed(read, a, component) == [] && Parsed(read, c, component) == [] && Parsed(read, e, component) == []
    requires (Parsed(read, b, component) == found && Parsed(read, d, component) == [])
             || (Parsed(read, b, component) == [] && Parsed(read, d, component) == found)
    ensures Parsed(read, a + b + c + d + e, component) == found
  {
    ParsedAppend(read, a + b + c + d, e, component);
    ParsedAppend(read, a + b + c, d, component);
    ParsedAppend(read, a + b, c, component);
    ParsedAppend(read, a, b, component);
    var p := Parsed(read, b, component);
    assert [] + p == p && p + [] == p;
    assert found + [] == found && [] + found == found;
  }

  // ----- the text itself

  /** What a line says when it does not come from this printer: numbers wrap and a long foundation is cut. */
  lemma WideLineParses(c: Candidate, component: nat, lim: Limits)
    requires IsWord(c.foundation) && IsWord(c.address) && component < ULONG_RANGE
    requires c.priority < ULONG_RANGE && c.port < ULONG_RANGE
    ensures Result(Attribute("candidate", Line(c, component)), lim)
            == Some(Candidate(if |c.foundation| <= lim.maxFoundation then c.foundation
                              else c.foundation[..lim.maxFoundation],
                              component, c.priority % 4294967296, c.address, c.port % 65536, c.kind))
  {
    LineScans(c, component);
    WideFields(Fields(c.foundation, component, "UDP", c.priority, c.address, c.port, TypeName(c.kind)), c.kind, lim);
  }

  lemma WideFields(f: Fields, kind: CandidateType, lim: Limits)
    requires f.transport == "UDP" && f.kind == TypeName(kind)
    ensures Interpret(Some(f), lim)
            == Some(Candidate(if |f.foundation| <= lim.maxFoundation then f.foundation
                              else f.foundation[..lim.maxFoundation],
                              f.component, f.priority % 4294967296, f.address, f.port % 65536, kind))
  {
    TypeReads(kind, lim.other);
  }

  /** The words of the four types. */
  lemma TypeWords()
    ensures TypeName(Host) == "host" && TypeName(ServerReflexive) == "srflx"
    ensures TypeName(PeerReflexive) == "prflx" && TypeName(Relayed) == "relay"
  {
  }

  lemma EndLooks()
    ensures " " + ("34" + (" " + ("typ" + (" " + "host")))) == " 34 typ host"
  {
    assert "typ" + (" " + "host") == "typ host";
  }

  lemma MiddleLooks(end: string)
    requires end == " 34 typ host"
    ensures " " + ("12" + (" " + ("h" + end))) == " 12 h 34 typ host"
  {
    assert "h" + end == "h 34 typ host";
  }

  lemma HeadLooks(middle: string)
    requires middle == " 12 h 34 typ host"
    ensures "f" + (" " + ("2" + (" " + ("UDP" + middle)))) == "f 2 UDP 12 h 34 typ host"
  {
    assert "UDP" + middle == "UDP 12 h 34 typ host";
  }

  /** A line as it stands in the description. */
  lemma LineLooks()
    ensures Line(Candidate("f", 1, 12, "h", 34, Host), 2) == "f 2 UDP 12 h 34 typ host"
  {
    var two, twelve, more := Decimal.Print(2), Decimal.Print(12), Decimal.Print(34);
    NumbersLook();
    var end := " " + (more + (" " + ("typ" + (" " + TypeName(Host)))));
    var middle := " " + (twelve + (" " + ("h" + end)));
    EndLooks();
    MiddleLooks(end);
    HeadLooks(middle);
  }

  lemma NumbersLook()
    ensures Decimal.Print(2) == "2" && Decimal.Print(12) == "12" && Decimal.Print(34) == "34"
  {
    Decimal.OneMoreDigit(1, 2);
    Decimal.OneMoreDigit(3, 4);
    assert Decimal.Print(2) == "2" && Decimal.Print(1) == "1" && Decimal.Print(3) == "3";
  }

  /** The lines of a text, each ended by CR LF. */
  function Lines(text: string): seq<string> {
    if text == "" then []
    else if "\r\n" <= text then [""] + Lines(text[2..])
    else
      var later := Lines(text[1..]);
      if later == [] then [text] else [[text[0]] + later[0]] + later[1..]
  }

  lemma {:induction false} LinesFirst(line: string, rest: string)
    requires '\r' !in line
    ensures Lines(line + ("\r\n" + rest)) == [line] + Lines(rest)
  {
    var text := line + ("\r\n" + rest);
    if line == "" {
      assert text == "\r\n" + rest && text[2..] == rest;
    } else {
      assert text[0] == line[0] && text[0] in line && text[1..] == line[1..] + ("\r\n" + rest);
      LinesFirst(line[1..], rest);
      assert line == [line[0]] + line[1..] && ([line[1..]] + Lines(rest))[1..] == Lines(rest);
    }
  }

  /** The attribute as one line of the description. */
  predicate OnLine(a: Attribute, line: string) {
    line == "a=" + (a.name + (":" + a.value))
  }

  predicate Unbroken(attrs: seq<Attribute>) {
    forall i :: 0 <= i < |attrs| ==> '\r' !in attrs[i].name && '\r' !in attrs[i].value
  }

  /** The attributes one to a line, and then `rest`. */
  predicate OnLines(attrs: seq<Attribute>, lines: seq<string>, rest: seq<string>) {
    && |lines| >= |attrs| && lines[|attrs|..] == rest
    && forall i :: 0 <= i < |attrs| ==> OnLine(attrs[i], lines[i])
  }

  lemma {:induction false} LinesOfPrinted(attrs: seq<Attribute>, rest: string)
    requires Unbroken(attrs)
    ensures OnLines(attrs, Lines(Printed(attrs) + rest), Lines(rest))
  {
    if attrs == [] {
      assert Printed(attrs) + rest == rest;
      assert Lines(rest)[0..] == Lines(rest);
    } else {
      var l := |attrs| - 1;
      var line := "a=" + (attrs[l].name + (":" + attrs[l].value));
      LinesFirst(line, rest);
      PrintedEnds(attrs, line, rest);
      LinesOfPrinted(attrs[..l], line + ("\r\n" + rest));
      OneLineMore(attrs, Lines(Printed(attrs) + rest), line, Lines(rest));
    }
  }

  lemma OneLineMore(attrs: seq<Attribute>, lines: seq<string>, line: string, rest: seq<string>)
    requires attrs != [] && OnLines(attrs[..|attrs| - 1], lines, [line] + rest) && OnLine(attrs[|attrs| - 1], line)
    ensures OnLines(attrs, lines, rest)
  {
    var l := |attrs| - 1;
    LastLine(lines, l, line, rest);
    forall i | 0 <= i < l ensures OnLine(attrs[i], lines[i]) {
      assert attrs[..l][i] == attrs[i];
    }
  }

  lemma TextIsLine(a: Attribute, line: string)
    requires OnLine(a, line)
    ensures AttributeText(a) == line + "\r\n"
  {
    Reassociate("a=", a.name, ":" + a.value);
    Reassociate("a=" + a.name, ":", a.value);
  }

  lemma PrintedEnds(attrs: seq<Attribute>, line: string, rest: string)
    requires attrs != [] && OnLine(attrs[|attrs| - 1], line)
    ensures Printed(attrs) + rest == Printed(attrs[..|attrs| - 1]) + (line + ("\r\n" + rest))
  {
    TextIsLine(attrs[|attrs| - 1], line);
    Reassociate(line, "\r\n", rest);
    Reassociate(Printed(attrs[..|attrs| - 1]), line + "\r\n", rest);
  }

  lemma LastLine(lines: seq<string>, l: nat, line: string, rest: seq<string>)
    requires l <= |lines| && lines[l..] == [line] + rest
    ensures |lines| > l && lines[l] == line && lines[l + 1..] == rest
  {
    assert lines[l] == lines[l..][0];
    assert lines[l + 1..] == lines[l..][1..];
  }

  /** Cutting printed attributes at their line ends gives them back, each as "a=name:value". */
  lemma PrintedLines(attrs: seq<Attribute>)
    requires Unbroken(attrs)
    ensures |Lines(Printed(attrs))| == |attrs|
    ensures forall i :: 0 <= i < |attrs| ==> OnLine(attrs[i], Lines(Printed(attrs))[i])
  {
    LinesOfPrinted(attrs, "");
    assert Printed(attrs) + "" == Printed(attrs);
    assert |Lines(Printed(attrs))[|attrs|..]| == 0;
  }

  /** A digit string behind at most a sign. */
  predicate Numeral(digits: string, rest: string) {
    digits != "" && Decimal.AllDigits(digits) && (rest == "" || !Decimal.IsDigit(rest[0]))
  }

  /** Numbers as they are read: what is too large sticks at the largest value. */
  lemma PlainNumber(digits: string, rest: string)
    requires Numeral(digits, rest)
    ensures var n := Decimal.Value(digits);
            ReadNumber(digits + rest) == Got(if n <= 18446744073709551615 then n else 18446744073709551615, rest)
  {
    var s := digits + rest;
    assert s[0] == digits[0] && Decimal.IsDigit(s[0]);
    Decimal.SpanOfDigits(digits, rest);
    assert s[..|digits|] == digits && s[|digits|..] == rest;
  }

  lemma SignedReads(signed: string, rest: string)
    requires signed != "" && Numeral(signed[1..], rest) && (signed[0] == '-' || signed[0] == '+')
    ensures ReadNumber(signed + rest) == Got(UnsignedLong(signed[0] == '-', Decimal.Value(signed[1..])), rest)
  {
    var digits, s := signed[1..], signed + rest;
    assert s[0] == signed[0] && s[1..] == digits + rest;
    Decimal.SpanOfDigits(digits, rest);
    assert s[1..][..|digits|] == digits && s[1..][|digits|..] == rest;
  }

  /** A plus sign changes nothing, a minus sign wraps round unless the number is too large. */
  lemma SignedNumber(signed: string, rest: string)
    requires signed != "" && Numeral(signed[1..], rest) && (signed[0] == '-' || signed[0] == '+')
    ensures var n := Decimal.Value(signed[1..]);
            ReadNumber(signed + rest)
            == Got(if n > 18446744073709551615 then 18446744073709551615
                   else if signed[0] == '+' || n == 0 then n else 18446744073709551616 - n, rest)
  {
    SignedReads(signed, rest);
    var n := Decimal.Value(signed[1..]);
    assert 0 < n < ULONG_RANGE ==> (ULONG_RANGE - n) % ULONG_RANGE == ULONG_RANGE - n;
  }

  /** The last attribute of the name counts, and there is none only if no attribute has the name. */
  lemma {:induction false} LastValueIs(attrs: seq<Attribute>, name: string)
    ensures LastValue(attrs, name).None? <==> forall i :: 0 <= i < |attrs| ==> attrs[i].name != name
    ensures LastValue(attrs, name).Some? ==>
              exists i :: 0 <= i < |attrs| && attrs[i] == Attribute(name, LastValue(attrs, name).value) &&
                          forall j :: i < j < |attrs| ==> attrs[j].name != name
  {
    if attrs != [] {
      LastValueIs(attrs[..|attrs| - 1], name);
    }
  }
}
