/**
 * The UDP port scan of Lab/sofsip-cli-0.16/src/farsight-netsocket-utils.c: an RTP port and, on
 * request, the port above it for RTCP (section 11 of RFC 3550).
 */
module PortScan {
  import opened Common

  const SCAN_RANGE: nat := 4096
  const MODULUS: nat := 65535 - 1023 + 1023

  /** The operating system's side: open sockets and the ports they are bound to. */
  class Network {
    var open: map<int, Option<nat>>
    const bindable: nat -> bool
    const canOpen: int -> bool

    constructor (bindable: nat -> bool, canOpen: int -> bool)
      ensures this.bindable == bindable && this.canOpen == canOpen && open == map[]
    {
      this.bindable, this.canOpen, open := bindable, canOpen, map[];
    }

    /** A descriptor that is not in use, or -1. */
    method Socket(fd: int) returns (r: int)
      requires fd >= 0 && fd !in open
      modifies this
      ensures r == if canOpen(fd) then fd else -1
      ensures open == if canOpen(fd) then old(open)[fd := None] else old(open)
    {
      r := -1;
      if canOpen(fd) {
        open := open[fd := None];
        r := fd;
      }
    }

    method Bind(fd: int, port: nat) returns (ok: bool)
      modifies this
      ensures ok == (fd in old(open) && old(open)[fd].None? && bindable(port))
      ensures open == if ok then old(open)[fd := Some(port)] else old(open)
    {
      ok := fd in open && open[fd].None? && bindable(port);
      if ok {
        open := open[fd := Some(port)];
      }
    }

    method Close(fd: int)
      modifies this
      ensures open == old(open) - {fd}
    {
      open := open - {fd};
    }
  }

  // ----- the ports a scan looks at

  function NextPort(port: nat): nat { (port + 2) % MODULUS }

  /** The port tried in round k. */
  function Visit(start: nat, k: nat): nat {
    if k == 0 then start else NextPort(Visit(start, k - 1))
  }

  lemma VisitNext(start: nat, k: nat)
    ensures Visit(start, k + 1) == NextPort(Visit(start, k))
  {
  }

  /** The first round whose port can be bound, or n. */
  function FirstBindable(bindable: nat -> bool, start: nat, k: nat, n: nat): (r: nat)
    requires k <= n
    ensures k <= r <= n
    decreases n - k
  {
    if k == n || bindable(Visit(start, k)) then k else FirstBindable(bindable, start, k + 1, n)
  }

  lemma {:induction false} FirstBindableIsFirst(bindable: nat -> bool, start: nat, k: nat, n: nat)
    requires k <= n
    ensures var r := FirstBindable(bindable, start, k, n);
            && (r < n ==> bindable(Visit(start, r)))
            && forall j :: k <= j < r ==> !bindable(Visit(start, j))
    decreases n - k
  {
    if k < n && !bindable(Visit(start, k)) {
      FirstBindableIsFirst(bindable, start, k + 1, n);
    }
  }

  lemma NextIs(a: nat)
    ensures (a % MODULUS + 2) % MODULUS == (a + 2) % MODULUS
  {
    var q := a / MODULUS;
    assert a == q * MODULUS + a % MODULUS;
    assert (a + 2) % MODULUS == (a % MODULUS + 2) % MODULUS;
  }

  lemma {:induction false} VisitIs(start: nat, k: nat)
    ensures Visit(start, k) == if k == 0 then start else (start + 2 * k) % MODULUS
  {
    if k > 0 {
      VisitIs(start, k - 1);
      var a: nat := start + 2 * (k - 1);
      NextIs(a);
      NextIs(start);
    }
  }

  /** A scan never looks at a port twice, and keeps the start port's parity until it wraps round. */
  lemma VisitsAreDistinct(start: nat, j: nat, k: nat)
    requires start <= 65535 && j < k < SCAN_RANGE
    ensures Visit(start, j) != Visit(start, k)
    ensures start + 2 * k < MODULUS ==> Visit(start, k) == start + 2 * k && Visit(start, k) % 2 == start % 2
    ensures MODULUS <= start + 2 * k ==> Visit(start, k) == start + 2 * k - MODULUS && Visit(start, k) % 2 != start % 2
  {
    VisitIs(start, j);
    VisitIs(start, k);
    assert start + 2 * k < 2 * MODULUS;
  }

  // ----- the scan

  /**
   * One round: bind the port and, if wanted, the one above it. A failed pair gives up the socket
   * for good (`sockfd'` is -1).
   */
  method TryPort(net: Network, sockfd: int, port: nat, wantAux: bool, fd2: int)
    returns (primary: bool, found: bool, sockfd': int, aux: Option<int>)
    requires -1 !in net.open && fd2 >= 0 && fd2 !in net.open && sockfd != fd2
    modifies net
    ensures primary == (sockfd in old(net.open) && old(net.open)[sockfd].None? && net.bindable(port))
    ensures found == (primary && (wantAux ==> net.canOpen(fd2) && net.bindable(AuxPort(port))))
    ensures sockfd' == (if primary && !found then -1 else sockfd)
    ensures aux == (if found && wantAux then Some(fd2) else None)
    ensures net.open == if !primary then old(net.open)
                        else if !found then old(net.open) - {sockfd}
                        else if wantAux then old(net.open)[sockfd := Some(port)][fd2 := Some(AuxPort(port))]
                        else old(net.open)[sockfd := Some(port)]
  {
    sockfd', aux := sockfd, None;
    primary := net.Bind(sockfd, port);
    found := primary;
    if found && wantAux {
      var tmp := net.Socket(fd2);
      found := net.Bind(tmp, AuxPort(port));
      if found {
        aux := Some(tmp);
      } else {
        net.Close(tmp);
        net.Close(sockfd);
        sockfd' := -1;
        assert net.open == old(net.open) - {sockfd};
      }
    }
  }

  /** What the scan is asked for; fd1 and fd2 are the descriptors the system would hand out. */
  datatype Request = Request(port: nat, start: nat, rounds: nat, wantAux: bool, fd1: int, fd2: int)

  function AuxPort(port: nat): nat { (port + 1) % 65536 }

  /** The round that decides the scan. */
  function Decider(bindable: nat -> bool, r: Request): nat {
    FirstBindable(bindable, r.start, 0, r.rounds)
  }

  lemma RoundDecides(bindable: nat -> bool, r: Request, i: nat)
    requires i < r.rounds && Decider(bindable, r) == FirstBindable(bindable, r.start, i, r.rounds)
    ensures if bindable(Visit(r.start, i)) then Decider(bindable, r) == i
            else Decider(bindable, r) == FirstBindable(bindable, r.start, i + 1, r.rounds)
  {
  }

  /** The scan succeeds: some port can be bound and, for a pair, the one above the first such port too. */
  predicate Succeeds(bindable: nat -> bool, canOpen: int -> bool, r: Request) {
    && canOpen(r.fd1) && Decider(bindable, r) < r.rounds
    && (r.wantAux ==> canOpen(r.fd2) && bindable(AuxPort(Visit(r.start, Decider(bindable, r)))))
  }

  function Opened(open: map<int, Option<nat>>, r: Request, port: nat): map<int, Option<nat>> {
    if r.wantAux then open[r.fd1 := Some(port)][r.fd2 := Some(AuxPort(port))] else open[r.fd1 := Some(port)]
  }

  /** The scan's results: the first bindable port decides, and nothing stays open but what is returned. */
  predicate Settled(bindable: nat -> bool, canOpen: int -> bool, r: Request, before: map<int, Option<nat>>,
                    after: map<int, Option<nat>>, sockfd: int, port: nat, aux: Option<int>) {
    var k := Decider(bindable, r);
    && port == (if canOpen(r.fd1) && k < r.rounds then Visit(r.start, k) else r.port)
    && if Succeeds(bindable, canOpen, r) then
         sockfd == r.fd1 && aux == (if r.wantAux then Some(r.fd2) else None) && after == Opened(before, r, port)
       else sockfd == -1 && aux == None && after == before
  }

  /** Rounds before `i` found no bindable port, and the one socket is still unbound. */
  predicate Undecided(bindable: nat -> bool, canOpen: int -> bool, r: Request, before: map<int, Option<nat>>,
                      open: map<int, Option<nat>>, sockfd: int, port: nat, aux: Option<int>, i: nat) {
    && canOpen(r.fd1) && sockfd == r.fd1 && port == r.port && aux == None && open == before[r.fd1 := None]
    && i <= r.rounds && Decider(bindable, r) == FirstBindable(bindable, r.start, i, r.rounds)
  }

  /** No socket is left, and what is left is the result. */
  predicate Lost(bindable: nat -> bool, canOpen: int -> bool, r: Request, before: map<int, Option<nat>>,
                 open: map<int, Option<nat>>, sockfd: int, port: nat, aux: Option<int>) {
    sockfd == -1 && Settled(bindable, canOpen, r, before, open, sockfd, port, aux)
  }

  /** One turn of the loop. */
  method Round(net: Network, sockfd: int, port: nat, aux: Option<int>, priPort: nat, i: nat,
               r: Request, ghost before: map<int, Option<nat>>)
    returns (found: bool, sockfd': int, port': nat, aux': Option<int>)
    requires 0 <= r.fd1 < r.fd2 && -1 !in before && r.fd1 !in before && r.fd2 !in before
    requires i < r.rounds && priPort == Visit(r.start, i)
    requires Undecided(net.bindable, net.canOpen, r, before, net.open, sockfd, port, aux, i)
             || Lost(net.bindable, net.canOpen, r, before, net.open, sockfd, port, aux)
    modifies net
    ensures found ==> Settled(net.bindable, net.canOpen, r, before, net.open, sockfd', port', aux')
    ensures !found ==> Undecided(net.bindable, net.canOpen, r, before, net.open, sockfd', port', aux', i + 1)
                       || Lost(net.bindable, net.canOpen, r, before, net.open, sockfd', port', aux')
  {
    port', aux' := port, aux;
    if sockfd == r.fd1 {
      RoundDecides(net.bindable, r, i);
    }
    var primary, pair;
    primary, found, sockfd', pair := TryPort(net, sockfd, priPort, r.wantAux, r.fd2);
    if primary {
      port', aux' := priPort, pair;
      assert net.open == if found then Opened(before, r, port') else before;
    }
  }

  /** farsight_netsocket_bind_udp_port. */
  method BindUdpPort(net: Network, port: nat, random: nat, scan: bool, wantAux: bool, fd1: int, fd2: int)
    returns (sockfd: int, port': nat, aux: Option<int>)
    requires port <= 65535 && 0 <= fd1 < fd2 && -1 !in net.open && fd1 !in net.open && fd2 !in net.open
    modifies net
    ensures var start := if port == 0 then random % (65535 - 1023) + 1023 else port;
            var r := Request(port, start, if scan then SCAN_RANGE else 1, wantAux, fd1, fd2);
            Settled(net.bindable, net.canOpen, r, old(net.open), net.open, sockfd, port', aux)
  {
    sockfd := net.Socket(fd1);
    port', aux := port, None;
    var priPort: nat := if port == 0 then random % (65535 - 1023) + 1023 else port;
    var r := Request(port, priPort, if scan then SCAN_RANGE else 1, wantAux, fd1, fd2);
    var priFound, i := false, 0;
    while !priFound && i < r.rounds
      invariant 0 <= i <= r.rounds && priPort == Visit(r.start, i)
      invariant priFound ==> Settled(net.bindable, net.canOpen, r, old(net.open), net.open, sockfd, port', aux)
      invariant !priFound ==> Undecided(net.bindable, net.canOpen, r, old(net.open), net.open, sockfd, port', aux, i)
                              || Lost(net.bindable, net.canOpen, r, old(net.open), net.open, sockfd, port', aux)
      decreases r.rounds - i
    {
      VisitNext(r.start, i);
      priFound, sockfd, port', aux := Round(net, sockfd, port', aux, priPort, i, r, old(net.open));
      priPort := NextPort(priPort);
      i := i + 1;
    }
    if !priFound {
      net.Close(sockfd);
      assert net.open == old(net.open);
      sockfd := -1;
    }
  }

  /** On every exit the sockets that were not open before are exactly the ones returned, bound as promised. */
  lemma OnlyReturnedStayOpen(bindable: nat -> bool, canOpen: int -> bool, r: Request, before: map<int, Option<nat>>,
                             after: map<int, Option<nat>>, sockfd: int, port: nat, aux: Option<int>)
    requires Settled(bindable, canOpen, r, before, after, sockfd, port, aux)
    requires 0 <= r.fd1 < r.fd2 && r.fd1 !in before && r.fd2 !in before
    ensures after.Keys - before.Keys
            == (if sockfd == -1 then {} else {sockfd}) + (if aux.Some? then {aux.value} else {})
    ensures forall fd :: fd in before ==> fd in after && after[fd] == before[fd]
    ensures sockfd != -1 ==>
              && after[sockfd] == Some(port) && bindable(port)
              && (forall j :: 0 <= j < Decider(bindable, r) ==> !bindable(Visit(r.start, j)))
              && (r.wantAux <==> aux.Some?)
              && (aux.Some? ==> after[aux.value] == Some(AuxPort(port)) && bindable(AuxPort(port)))
  {
    FirstBindableIsFirst(bindable, r.start, 0, r.rounds);
    assert sockfd != -1 ==> after.Keys == before.Keys + {r.fd1} + (if r.wantAux then {r.fd2} else {});
  }

  /**
   * A pair is lost for good at the first bindable port whose partner is taken: whatever ports come
   * later in the scan, nothing is returned and nothing stays open.
   */
  lemma LostPairEndsScan(bindable: nat -> bool, canOpen: int -> bool, r: Request, before: map<int, Option<nat>>,
                         after: map<int, Option<nat>>, sockfd: int, port: nat, aux: Option<int>, k: nat)
    requires Settled(bindable, canOpen, r, before, after, sockfd, port, aux) && r.wantAux
    requires k < r.rounds && (forall j :: 0 <= j < k ==> !bindable(Visit(r.start, j)))
    requires bindable(Visit(r.start, k)) && !bindable(AuxPort(Visit(r.start, k)))
    ensures sockfd == -1 && aux == None && after == before
  {
    FirstBindableIsFirst(bindable, r.start, 0, r.rounds);
  }

  /** With port 5000 free but not 5001, the free pair 5002 and 5003 is missed. */
  lemma MissedPair(canOpen: int -> bool, before: map<int, Option<nat>>, after: map<int, Option<nat>>,
                   sockfd: int, port: nat, aux: Option<int>)
    requires var free := (p: nat) => p == 5000 || p == 5002 || p == 5003;
             Settled(free, canOpen, Request(5000, 5000, SCAN_RANGE, true, 3, 4), before, after, sockfd, port, aux)
    ensures sockfd == -1 && aux == None && after == before
    ensures Visit(5000, 1) == 5002 && AuxPort(5002) == 5003
  {
    var free := (p: nat) => p == 5000 || p == 5002 || p == 5003;
    assert Visit(5000, 0) == 5000;
    VisitNext(5000, 0);
    LostPairEndsScan(free, canOpen, Request(5000, 5000, SCAN_RANGE, true, 3, 4), before, after, sockfd, port, aux, 0);
  }

  /** The numbers of a scan: 4096 rounds, every second port modulo 65535, and the pair at the next port modulo 65536. */
  lemma ScanNumbers(start: nat, k: nat, port: nat)
    ensures SCAN_RANGE == 4096 && Visit(start, 0) == start && Visit(start, k + 1) == (start + 2 * (k + 1)) % 65535
    ensures AuxPort(port) == (port + 1) % 65536 && (port < 65535 ==> AuxPort(port) == port + 1) && AuxPort(65535) == 0
  {
    VisitIs(start, k + 1);
  }
}
