/**
 * Replies sent to the application over a pipe
 * (RestCommClient/Classes/CliInterface/ssc_sip.h:165-290).
 */
module PipeFraming {
  import opened Common
  import opened Text
  import Decimal

  datatype Reply = Reply(rc: int, text: string)

  const INT_MIN: int := -0x8000_0000
  const INT_MAX: int := 0x7FFF_FFFF

  function PrintInt(n: int): string {
    if n < 0 then "-" + Decimal.Print(-n) else Decimal.Print(n)
  }

  function Clamp(n: int): int {
    if n < INT_MIN then INT_MIN else if n > INT_MAX then INT_MAX else n
  }

  /** `stream >> rc` on a stream holding `s`: nothing to read leaves rc alone, no number makes it 0. */
  function ReadInt(s: string, rc: int): int {
    var t := SkipBlanks(s);
    if t == [] then rc
    else
      var digits := if t[0] == '-' || t[0] == '+' then t[1..] else t;
      var n: int := Decimal.Value(digits[..Decimal.Span(digits)]);
      Clamp(if t[0] == '-' then -n else n)
  }

  /** SofiaReply::Serialize. */
  function Serialize(r: Reply): string {
    PrintInt(r.rc) + " " + r.text + "$"
  }

  /** What DeserializeSingle makes of a message, starting from the fields `r`. */
  function DecodeSingle(s: string, r: Reply): Reply {
    if s == [] then r
    else
      var k := Find(s, ' ');
      var rc := ReadInt(s[..k], r.rc);
      var rest := if k < |s| then s[k + 1..] else [];
      if rest == [] then r.(rc := rc) else Reply(rc, rest[..Find(rest, '$')])
  }

  /** Deserialize's result fields and the rest of the input. */
  function Decode(s: string, r: Reply): (d: (Reply, string))
    ensures d.1 == "" || |d.1| < |s|
  {
    var k := Find(s, '$');
    if k == |s| then (r, "") else (DecodeSingle(s[..k + 1], r), s[k + 1..])
  }

  /** The replies handed to the application for one read from the pipe. */
  function DecodeAll(s: string, r: Reply): seq<Reply>
    decreases |s|
  {
    var (r', rest) := Decode(s, r);
    if rest == [] then [r'] else [r'] + DecodeAll(rest, r')
  }

  function SerializeAll(rs: seq<Reply>): string {
    if rs == [] then "" else Serialize(rs[0]) + SerializeAll(rs[1..])
  }

  class SofiaReply {
    var rc: int
    var text: string

    constructor ()
      ensures Fields() == Reply(0, "")
    {
      rc, text := 0, "";
    }

    function Fields(): Reply
      reads this
    {
      Reply(rc, text)
    }

    /** Reads tokens with std::getline, first up to a blank, then up to the terminator. */
    method DeserializeSingle(serialized: string)
      modifies this
      ensures Fields() == DecodeSingle(serialized, old(Fields()))
    {
      var input, delim, index := serialized, ' ', 0;
      while input != []
        invariant index == 0 ==> input == serialized && delim == ' ' && Fields() == old(Fields())
        invariant index == 1 ==>
                    && delim == '$' && serialized != []
                    && (var k := Find(serialized, ' ');
                        && input == (if k < |serialized| then serialized[k + 1..] else [])
                        && Fields() == Reply(ReadInt(serialized[..k], old(rc)), old(text)))
        invariant index >= 2 ==> delim == '$' && Fields() == DecodeSingle(serialized, old(Fields()))
        invariant index >= 0
        decreases |input|
      {
        var k := Find(input, delim);
        var token := input[..k];
        input := if k < |input| then input[k + 1..] else [];
        if index == 0 {
          rc := ReadInt(token, rc);
          delim := '$';
        } else if index == 1 {
          text := token;
        }
        index := index + 1;
      }
    }

    /** Takes the first message out of `serialized` and returns what follows it. */
    method Deserialize(serialized: string) returns (remaining: string)
      modifies this
      ensures (Fields(), remaining) == Decode(serialized, old(Fields()))
      ensures remaining == "" || |remaining| < |serialized|
    {
      var found := Find(serialized, '$');
      if found == |serialized| {
        return "";
      }
      DeserializeSingle(serialized[..found + 1]);
      remaining := serialized[found + 1..];
    }
  }

  /** The application's read loop (RestCommClient/Classes/SipManager/SipManager.mm:316-327). */
  method Receive(msg: string) returns (replies: seq<Reply>)
    ensures replies == DecodeAll(msg, Reply(0, ""))
  {
    var reply := new SofiaReply();
    replies := [];
    var incoming := msg;
    ghost var ahead := DecodeAll(msg, reply.Fields());
    while true
      invariant fresh(reply) && ahead == DecodeAll(incoming, reply.Fields())
      invariant DecodeAll(msg, Reply(0, "")) == replies + ahead
      decreases |incoming|
    {
      DecodeAllStep(incoming, reply.Fields(), replies);
      incoming := reply.Deserialize(incoming);
      replies := replies + [reply.Fields()];
      if incoming == "" {
        return;
      }
      ahead := DecodeAll(incoming, reply.Fields());
    }
  }

  lemma DecodeAllIs(s: string, r: Reply)
    ensures var (r', rest) := Decode(s, r);
            DecodeAll(s, r) == [r'] + if rest == "" then [] else DecodeAll(rest, r')
  {
    var (r', rest) := Decode(s, r);
    assert [r'] + [] == [r'];
  }

  lemma DecodeAllStep(s: string, r: Reply, replies: seq<Reply>)
    ensures var (r', rest) := Decode(s, r);
            replies + DecodeAll(s, r) == if rest == "" then replies + [r'] else replies + [r'] + DecodeAll(rest, r')
  {
    var (r', rest) := Decode(s, r);
    DecodeAllIs(s, r);
    if rest == "" {
      assert replies + ([r'] + []) == replies + [r'];
    } else {
      Reassociate(replies, [r'], DecodeAll(rest, r'));
    }
  }

  // ----- laws

  lemma FindAtMost(s: string, c: char, at: nat)
    requires at < |s| && s[at] == c
    ensures Find(s, c) <= at
  {
    var k := Find(s, c);
    assert forall j :: 0 <= j < k ==> s[..k][j] == s[j] && s[j] != c;
  }

  lemma PrintIntReadsBack(n: int, rc: int)
    requires INT_MIN <= n <= INT_MAX
    ensures ReadInt(PrintInt(n), rc) == n && ' ' !in PrintInt(n) && '$' !in PrintInt(n)
  {
    var s := PrintInt(n);
    var digits := if n < 0 then s[1..] else s;
    Decimal.PrintRoundTrip(if n < 0 then -n else n);
    assert digits == Decimal.Print(if n < 0 then -n else n);
    Decimal.SpanOfDigits(digits, []);
    assert digits + [] == digits && digits[..|digits|] == digits;
    assert Decimal.IsDigit(digits[0]);
  }

  lemma SingleDecodes(code: string, text: string, before: Reply)
    requires ' ' !in code && '$' !in text
    ensures DecodeSingle(code + (" " + (text + "$")), before) == Reply(ReadInt(code, before.rc), text)
  {
    var tail := text + "$";
    var one := code + (" " + tail);
    FindIn(code, " " + tail, ' ');
    assert one[..|code|] == code && one[|code| + 1..] == tail;
    FindIn(text, "$", '$');
    assert tail[..|text|] == text;
  }

  lemma SerializeIs(r: Reply, code: string)
    requires code == PrintInt(r.rc)
    ensures Serialize(r) == code + (" " + (r.text + "$"))
  {
    Reassociate(code + " ", r.text, "$");
    Reassociate(code, " ", r.text + "$");
  }

  lemma SingleRoundTrip(r: Reply, before: Reply)
    requires INT_MIN <= r.rc <= INT_MAX && '$' !in r.text
    ensures DecodeSingle(Serialize(r), before) == r && '$' !in PrintInt(r.rc)
  {
    var code := PrintInt(r.rc);
    PrintIntReadsBack(r.rc, before.rc);
    SingleDecodes(code, r.text, before);
    SerializeIs(r, code);
  }

  /** One message, whatever follows it and whatever the fields held before. */
  lemma MessageRoundTrip(r: Reply, rest: string, before: Reply)
    requires INT_MIN <= r.rc <= INT_MAX && '$' !in r.text
    ensures Decode(Serialize(r) + rest, before) == (r, rest)
  {
    SingleRoundTrip(r, before);
    var body, s := PrintInt(r.rc) + " " + r.text, Serialize(r) + rest;
    assert s == body + ("$" + rest);
    FindIn(body, "$" + rest, '$');
    assert s[..|body| + 1] == Serialize(r) && s[|body| + 1..] == rest;
  }

  /**
   * Stream round trip: any non-empty sequence of replies with $-free text, sent back to back, is
   * received as that sequence.
   */
  lemma {:induction false} StreamRoundTrip(rs: seq<Reply>, before: Reply)
    requires rs != [] && forall r :: r in rs ==> INT_MIN <= r.rc <= INT_MAX && '$' !in r.text
    ensures DecodeAll(SerializeAll(rs), before) == rs
  {
    var r, more := rs[0], rs[1..];
    assert r in rs && rs == [r] + more && forall x :: x in more ==> x in rs;
    MessageRoundTrip(r, SerializeAll(more), before);
    DecodeAllIs(SerializeAll(rs), before);
    if more == [] {
      assert SerializeAll(more) == "";
    } else {
      StreamRoundTrip(more, r);
    }
  }

  /** A message survives the pipe exactly when its text has no terminator in it. */
  lemma MessageSurvivesWhen(r: Reply, rest: string, before: Reply)
    requires INT_MIN <= r.rc <= INT_MAX
    ensures Decode(Serialize(r) + rest, before) == (r, rest) <==> '$' !in r.text
  {
    if '$' in r.text {
      var j :| 0 <= j < |r.text| && r.text[j] == '$';
      var s := Serialize(r) + rest;
      var at := |PrintInt(r.rc)| + 1 + j;
      FindAtMost(s, '$', at);
    } else {
      MessageRoundTrip(r, rest, before);
    }
  }

  /** Two messages as they stand in the pipe. */
  lemma MessagesLook()
    ensures Serialize(Reply(200, "OK")) == "200 OK$" && Serialize(Reply(-1, "")) == "-1 $"
  {
    assert Decimal.Print(200) == "200" by {
      assert Decimal.Print(2) == "2" && Decimal.Print(20) == "20";
    }
    assert Decimal.Print(1) == "1";
  }

  /** Without a terminator nothing is decoded and nothing is left. */
  lemma NoTerminator(s: string, before: Reply)
    requires '$' !in s
    ensures Decode(s, before) == (before, "")
  {
    FindIn(s, [], '$');
    assert s + [] == s;
  }

  /** A code beyond the range of int is received as the nearest int, and a code that is no number as 0. */
  lemma OddCodes(code: string, text: string, rest: string, before: Reply)
    requires code != "" && '$' !in text
    requires ' ' !in code && '$' !in code
    ensures Decimal.AllDigits(code) && Decimal.Value(code) >= 2147483647 ==>
              Decode(code + " " + text + "$" + rest, before) == (Reply(2147483647, text), rest)
    ensures !Decimal.IsDigit(code[0]) && !IsBlank(code[0]) && code[0] != '-' && code[0] != '+' ==>
              Decode(code + " " + text + "$" + rest, before) == (Reply(0, text), rest)
  {
    AnyCode(code, text, rest, before);
    if Decimal.AllDigits(code) {
      Decimal.SpanOfDigits(code, []);
      assert code + [] == code && code[..|code|] == code && Decimal.IsDigit(code[0]);
    } else if !Decimal.IsDigit(code[0]) {
      assert code[..0] == "";
    }
  }

  lemma AnyCode(code: string, text: string, rest: string, before: Reply)
    requires '$' !in text && ' ' !in code && '$' !in code
    ensures Decode(code + " " + text + "$" + rest, before) == (Reply(ReadInt(code, before.rc), text), rest)
  {
    var body := code + " " + text;
    FindIn(body, "$" + rest, '$');
    assert code + " " + text + "$" + rest == body + ("$" + rest);
    assert (body + ("$" + rest))[..|body| + 1] == code + (" " + (text + "$"));
    assert (body + ("$" + rest))[|body| + 1..] == rest;
    SingleDecodes(code, text, before);
  }

  /** A message without a code leaves the code that was there. */
  lemma NoCode(text: string, rest: string, before: Reply)
    requires '$' !in text
    ensures Decode(" " + text + "$" + rest, before) == (Reply(before.rc, text), rest)
  {
    assert "" + " " == " ";
    AnyCode("", text, rest, before);
  }

  /** A message without a blank changes the code alone. */
  lemma NoText(digits: string, rest: string, before: Reply)
    requires digits != "" && Decimal.AllDigits(digits) && Decimal.Value(digits) <= 2147483647
    ensures Decode(digits + ("$" + rest), before) == (Reply(Decimal.Value(digits), before.text), rest)
  {
    var s := digits + ("$" + rest);
    FindIn(digits, "$" + rest, '$');
    assert s[..|digits| + 1] == digits + "$" && s[|digits| + 1..] == rest;
    CodeAlone(digits, before);
  }

  lemma CodeAlone(digits: string, before: Reply)
    requires digits != "" && Decimal.AllDigits(digits) && Decimal.Value(digits) <= 2147483647
    ensures DecodeSingle(digits + "$", before) == Reply(Decimal.Value(digits), before.text)
  {
    var s := digits + "$";
    FindIn(s, [], ' ');
    assert s + [] == s && s[..|s|] == s;
    Decimal.SpanOfDigits(digits, "$");
    assert s[..|digits|] == digits && s[0] == digits[0] && Decimal.IsDigit(digits[0]);
  }

  lemma NegativeReads(code: string, rc: int)
    requires |code| > 1 && code[0] == '-' && Decimal.AllDigits(code[1..])
    ensures ReadInt(code, rc) == Clamp(-(Decimal.Value(code[1..]) as int))
  {
    var digits := code[1..];
    assert digits + [] == digits && digits[..|digits|] == digits;
    Decimal.SpanOfDigits(digits, []);
  }

  lemma CodeIsToken(code: string)
    requires |code| > 1 && code[0] == '-' && Decimal.AllDigits(code[1..])
    ensures ' ' !in code && '$' !in code
  {
    forall i | 0 <= i < |code| ensures code[i] != ' ' && code[i] != '$' {
      assert i > 0 ==> code[i] == code[1..][i - 1] && Decimal.IsDigit(code[1..][i - 1]);
    }
  }

  /** A code below the range of int is received as the smallest int. */
  lemma SmallCodes(code: string, text: string, rest: string, before: Reply)
    requires |code| > 1 && code[0] == '-' && Decimal.AllDigits(code[1..]) && '$' !in text
    ensures var n: int := Decimal.Value(code[1..]);
            Decode(code + " " + text + "$" + rest, before)
            == (Reply(if n > 2147483648 then -2147483648 else -n, text), rest)
  {
    NegativeReads(code, before.rc);
    CodeIsToken(code);
    AnyCode(code, text, rest, before);
  }
}
