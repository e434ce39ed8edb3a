/**
 * Pending authentication challenges (Lab/sofsip-cli-0.16/src/ssc_sip.c:331-389 and 576-661).
 */
module AuthQueue {
  import opened Common

  /** `op` is the operation the challenge came for. */
  datatype AuthItem = AuthItem(scheme: string, realm: string, username: string, op: nat)

  /** A WWW-Authenticate or Proxy-Authenticate header. */
  datatype Challenge = Challenge(scheme: string, realm: string)

  datatype Authenticated = Authenticated(op: nat, credentials: string)

  function Count(s: string, c: char): nat {
    if s == [] then 0 else (if s[0] == c then 1 else 0) + Count(s[1..], c)
  }

  /** Fields with colons between them, as the printf formats "%s:%s" and so on make them. */
  function Join(fields: seq<string>): string
    requires fields != []
  {
    if |fields| == 1 then fields[0] else fields[0] + (":" + Join(fields[1..]))
  }

  /** The string handed to nua_authenticate for `data` typed by the user. */
  function Credentials(item: AuthItem, data: string): string {
    match Count(data, ':')
    case 0 => Join([item.scheme, item.realm, item.username, data])
    case 1 => Join([item.scheme, item.realm, data])
    case _ => data
  }

  /** How many challenges at the head of the queue are for operations that are gone. */
  function Stale(items: seq<AuthItem>, live: nat -> bool): (k: nat)
    ensures k <= |items| && (k < |items| ==> live(items[k].op))
    ensures forall j :: 0 <= j < k ==> !live(items[j].op)
  {
    if items == [] || live(items[0].op) then 0
    else
      var k := Stale(items[1..], live);
      assert forall j :: 0 < j < k + 1 ==> items[j] == items[1..][j - 1];
      1 + k
  }

  class AuthQueue {
    var pending: seq<AuthItem>

    constructor ()
      ensures pending == []
    {
      pending := [];
    }

    /** ssc_store_pending_auth: a server challenge and a proxy challenge are queued in this order. */
    method Store(op: nat, username: string, server: Option<Challenge>, proxy: Option<Challenge>)
      modifies this
      ensures |pending| == |old(pending)| + (if server.Some? then 1 else 0) + (if proxy.Some? then 1 else 0)
      ensures old(pending) <= pending
      ensures server.Some? ==>
                pending[|old(pending)|] == AuthItem(server.value.scheme, server.value.realm, username, op)
      ensures proxy.Some? ==>
                pending[|pending| - 1] == AuthItem(proxy.value.scheme, proxy.value.realm, username, op)
    {
      if server.Some? {
        pending := pending + [AuthItem(server.value.scheme, server.value.realm, username, op)];
      }
      if proxy.Some? {
        pending := pending + [AuthItem(proxy.value.scheme, proxy.value.realm, username, op)];
      }
    }

    /**
     * ssc_auth: drops the challenges of operations that are gone and answers the first one that is
     * not, whatever decides which operations are live.
     */
    method Auth(data: string, live: nat -> bool) returns (sent: seq<Authenticated>)
      modifies this
      ensures var items := old(pending);
              var k := Stale(items, live);
              && pending == (if k < |items| then items[k + 1..] else [])
              && sent == if k < |items| then [Authenticated(items[k].op, Credentials(items[k], data))] else []
    {
      sent := [];
      ghost var dropped := 0;
      while pending != [] && sent == []
        invariant dropped <= |old(pending)| && pending == old(pending)[dropped..]
        invariant sent == [] ==> Stale(old(pending), live) == dropped + Stale(pending, live)
        invariant sent != [] ==>
                    var k := Stale(old(pending), live);
                    && k < |old(pending)| && dropped == k + 1
                    && sent == [Authenticated(old(pending)[k].op, Credentials(old(pending)[k], data))]
        decreases |pending|
      {
        var item := pending[0];
        if live(item.op) {
          var colons, auth := Count(data, ':'), data;
          if colons == 0 {
            auth := Join([item.scheme, item.realm, item.username, data]);
          } else if colons == 1 {
            auth := Join([item.scheme, item.realm, data]);
          }
          sent := [Authenticated(item.op, auth)];
        }
        assert old(pending)[dropped..][1..] == old(pending)[dropped + 1..];
        pending := pending[1..];
        dropped := dropped + 1;
      }
    }
  }

  // ----- what the receiver of the credentials makes of them

  function Split(s: string): (parts: seq<string>)
    ensures parts != []
  {
    if s == [] then [""]
    else
      var rest := Split(s[1..]);
      if s[0] == ':' then [""] + rest else [[s[0]] + rest[0]] + rest[1..]
  }

  lemma {:induction false} SplitParts(s: string)
    ensures forall p :: p in Split(s) ==> ':' !in p
  {
    if s != [] {
      SplitParts(s[1..]);
    }
  }

  lemma {:induction false} SplitField(field: string, rest: string)
    requires ':' !in field
    ensures Split(field + (":" + rest)) == [field] + Split(rest)
    ensures Split(field) == [field]
  {
    if field == [] {
      assert field + (":" + rest) == ":" + rest && (":" + rest)[1..] == rest;
    } else {
      var all := field + (":" + rest);
      assert all[0] == field[0] && all[1..] == field[1..] + (":" + rest);
      SplitField(field[1..], rest);
      assert field == [field[0]] + field[1..];
      assert Split(all[1..])[1..] == Split(rest);
    }
  }

  lemma {:induction false} CountNone(s: string)
    ensures Count(s, ':') == 0 <==> ':' !in s
  {
    if s != [] {
      CountNone(s[1..]);
    }
  }

  lemma {:induction false} CountOne(a: string, b: string)
    requires ':' !in a && ':' !in b
    ensures Count(a + (":" + b), ':') == 1
  {
    if a == [] {
      assert (a + (":" + b))[1..] == b;
      CountNone(b);
    } else {
      assert (a + (":" + b))[1..] == a[1..] + (":" + b);
      CountOne(a[1..], b);
    }
  }

  /** Joining is undone by splitting, field by field, as long as all but the last field are free of colons. */
  lemma {:induction false} SplitJoin(fields: seq<string>)
    requires fields != [] && forall i :: 0 <= i < |fields| - 1 ==> ':' !in fields[i]
    ensures Split(Join(fields)) == fields[..|fields| - 1] + Split(fields[|fields| - 1])
  {
    var last := fields[|fields| - 1];
    if |fields| == 1 {
      assert fields[..0] + Split(last) == Split(last);
    } else {
      var rest := fields[1..];
      SplitJoin(rest);
      SplitField(fields[0], Join(rest));
      assert fields[..|fields| - 1] == [fields[0]] + rest[..|rest| - 1];
      Reassociate([fields[0]], rest[..|rest| - 1], Split(last));
    }
  }

  /** A password alone is completed to four fields that can be taken apart again, if and only if none has a colon. */
  lemma PasswordCredentials(item: AuthItem, password: string)
    requires ':' !in password
    ensures Split(Credentials(item, password)) == [item.scheme, item.realm, item.username, password]
            <==> ':' !in item.scheme && ':' !in item.realm && ':' !in item.username
  {
    CountNone(password);
    var fields := [item.scheme, item.realm, item.username, password];
    if ':' !in item.scheme && ':' !in item.realm && ':' !in item.username {
      SplitJoin(fields);
      SplitField(password, "");
      assert fields[..3] + [password] == fields;
    } else {
      SplitParts(Credentials(item, password));
      assert item.scheme in fields && item.realm in fields && item.username in fields;
    }
  }

  /** User and password are completed with scheme and realm. */
  lemma UserPasswordCredentials(item: AuthItem, user: string, password: string)
    requires ':' !in user && ':' !in password
    ensures Split(Credentials(item, user + (":" + password))) == [item.scheme, item.realm, user, password]
            <==> ':' !in item.scheme && ':' !in item.realm
  {
    CountOne(user, password);
    var data := user + (":" + password);
    var fields, parts := [item.scheme, item.realm, data], [item.scheme, item.realm, user, password];
    if ':' !in item.scheme && ':' !in item.realm {
      SplitJoin(fields);
      SplitField(user, password);
      SplitField(password, "");
      assert fields[..2] + ([user] + [password]) == parts;
    } else {
      SplitParts(Credentials(item, data));
      assert item.scheme in parts && item.realm in parts;
    }
  }

  lemma {:induction false} CountJoin(a: string, b: string)
    ensures Count(a + (":" + b), ':') == Count(a, ':') + 1 + Count(b, ':')
  {
    if a == [] {
      assert a + (":" + b) == ":" + b && (":" + b)[1..] == b;
    } else {
      assert (a + (":" + b))[0] == a[0] && (a + (":" + b))[1..] == a[1..] + (":" + b);
      CountJoin(a[1..], b);
    }
  }

  /** The full form, with two colons or more, is sent as it was typed. */
  lemma FullCredentials(item: AuthItem, scheme: string, realm: string, user: string)
    ensures var data := scheme + (":" + (realm + (":" + user))); Credentials(item, data) == data
  {
    CountJoin(scheme, realm + (":" + user));
    CountJoin(realm, user);
  }
}
