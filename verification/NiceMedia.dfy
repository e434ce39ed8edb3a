/**
 * The ICE media agent (Lab/sofsip-cli-0.16/src/ssc_media_nice.c:147-302, 417-472 and 799-829):
 * test packets, packet loopback with a replaced SSRC (section 5.1 of RFC 3550) and the
 * transmission timer.
 */
module NiceMedia {
  import opened MediaStates

  newtype byte = x: int | 0 <= x < 256

  const UINT_RANGE: nat := 0x1_0000_0000

  datatype ComponentState = Disconnected | Gathering | Connecting | Connected | Ready | Failed

  datatype Component = Rtp | Rtcp | Other

  /**
   * The agent's fields, the outstanding timers of the main loop, and three exact counts for the
   * current stream (`arrived`, `tests`, `loops`) to compare the 32-bit counters with.
   */
  datatype Nice = Nice(
    state: MediaState, stream: nat, gatheringDone: bool,
    timerId: nat, timers: set<nat>, rtp: ComponentState, rtcp: ComponentState,
    rtpReceived: nat, testReceived: nat, testSent: nat, testFailed: nat, looped: nat, ssrc: nat,
    arrived: nat, tests: nat, loops: nat)

  const Created := Nice(Init, 0, false, 0, {}, Disconnected, Disconnected, 0, 0, 0, 0, 0, 0, 0, 0, 0)

  function Inc(n: nat): nat { (n + 1) % UINT_RANGE }

  // ----- packets

  type Packet = seq<byte>

  predicate IsRtp(p: Packet) { |p| > 11 && 128 <= p[0] < 192 }

  predicate IsTest(p: Packet) { |p| == 12 && p[1] == 0x7F }

  /** The four SSRC bytes as a number, in the host's (little-endian) order. */
  function Load(b: seq<byte>): (n: nat)
    requires |b| == 4
    ensures n < UINT_RANGE
  {
    b[0] as nat + 256 * (b[1] as nat + 256 * (b[2] as nat + 256 * b[3] as nat))
  }

  function Store(n: nat): (b: seq<byte>)
    requires n < UINT_RANGE
    ensures |b| == 4
  {
    [(n % 256) as byte, (n / 256 % 256) as byte, (n / 65536 % 256) as byte, (n / 16777216) as byte]
  }

  lemma LoadStore(n: nat)
    requires n < UINT_RANGE
    ensures Load(Store(n)) == n
  {
    assert n / 65536 == n / 256 / 256 && n / 16777216 == n / 65536 / 256;
  }

  /** The SSRC used for looped packets once `p` has been seen. */
  function Picked(ssrc: nat, p: Packet): nat {
    if ssrc == 0 && IsRtp(p) then Inc(Load(p[8..12])) else ssrc
  }

  /** The packet sent back. */
  function Looped(ssrc: nat, p: Packet): Packet
    requires ssrc < UINT_RANGE
  {
    if |p| > 11 then p[..8] + Store(ssrc) + p[12..] else p
  }

  // ----- steps

  datatype Event =
    | Activate(newStream: nat, gathered: bool)
    | Deactivate
    | Receive(stream: nat, packet: Packet)
    | GatheringDone
    | ComponentChanged(stream: nat, component: Component, state: ComponentState, freshTimer: nat)
    | Tick(id: nat)

  function ActivateStep(n: Nice, newStream: nat, gathered: bool): Nice {
    if n.stream > 0 then n
    else n.(rtpReceived := 0, testReceived := 0, testSent := 0, testFailed := 0, looped := 0, ssrc := 0,
            gatheringDone := gathered, stream := newStream, arrived := 0, tests := 0, loops := 0,
            state := if newStream > 0 && gathered then LocalReady else n.state)
  }

  function DeactivateStep(n: Nice): Nice {
    n.(stream := 0, state := Disabled)
  }

  function ArriveStep(n: Nice, p: Packet): Nice {
    n.(arrived := n.arrived + 1, rtpReceived := if IsRtp(p) then Inc(n.rtpReceived) else n.rtpReceived)
  }

  function TestStep(n: Nice): Nice {
    n.(tests := n.tests + 1, testReceived := Inc(n.testReceived),
       state := if Inc(n.testReceived) >= 2 then Active else n.state)
  }

  function LoopStep(n: Nice, p: Packet): Nice {
    n.(loops := n.loops + 1, looped := Inc(n.looped), ssrc := Picked(n.ssrc, p))
  }

  function ReceiveStep(n: Nice, stream: nat, p: Packet): Nice {
    if n.stream != stream then n
    else if IsTest(p) then TestStep(ArriveStep(n, p))
    else LoopStep(ArriveStep(n, p), p)
  }

  function GatheringDoneStep(n: Nice): Nice {
    n.(gatheringDone := true, state := if n.stream > 0 then LocalReady else n.state)
  }

  function CancelTimer(n: Nice): Nice {
    if n.timerId > 0 then n.(timers := n.timers - {n.timerId}, timerId := 0) else n
  }

  function StartTimer(n: Nice, id: nat): Nice {
    if n.timerId == 0 then n.(timerId := id, timers := n.timers + {id}) else n
  }

  function FailStep(n: Nice): Nice {
    n.(testFailed := Inc(n.testFailed), state := Error)
  }

  function RecordStep(n: Nice, c: Component, s: ComponentState): Nice {
    n.(rtp := if c.Rtp? then s else n.rtp, rtcp := if c.Rtcp? then s else n.rtcp)
  }

  function ComponentStep(n: Nice, stream: nat, c: Component, s: ComponentState, freshTimer: nat): Nice {
    var n := RecordStep(n, c, s);
    if n.stream != stream then n
    else if n.rtp.Ready? && n.rtcp.Ready? then StartTimer(n, freshTimer)
    else if n.rtp.Disconnected? && n.rtcp.Disconnected? then CancelTimer(n)
    else if n.rtp.Failed? || n.rtcp.Failed? then CancelTimer(FailStep(n))
    else n
  }

  /** dummy_sender_tick; returning FALSE takes the source off the main loop. */
  function TickStep(n: Nice, id: nat): Nice {
    if (n.state.Active? || n.state.LocalReady?) && n.testSent == 0 then n.(testSent := 2)
    else n.(timerId := 0, timers := n.timers - {id})
  }

  /** What the main loop and libnice can deliver: stream and timer ids are positive, and only live timers fire. */
  predicate Enabled(n: Nice, e: Event) {
    match e
    case Activate(_, _) => true
    case Deactivate => !n.state.Disabled?
    case Receive(stream, _) => stream > 0
    case GatheringDone => true
    case ComponentChanged(stream, _, _, freshTimer) => stream > 0 && freshTimer > 0 && freshTimer !in n.timers
    case Tick(id) => id in n.timers
  }

  function Step(n: Nice, e: Event): Nice {
    match e
    case Activate(newStream, gathered) => ActivateStep(n, newStream, gathered)
    case Deactivate => DeactivateStep(n)
    case Receive(stream, p) => ReceiveStep(n, stream, p)
    case GatheringDone => GatheringDoneStep(n)
    case ComponentChanged(stream, c, s, freshTimer) => ComponentStep(n, stream, c, s, freshTimer)
    case Tick(id) => TickStep(n, id)
  }

  predicate Runs(n: Nice, events: seq<Event>)
    decreases |events|
  {
    events == [] || (Enabled(n, events[0]) && Runs(Step(n, events[0]), events[1..]))
  }

  function Run(n: Nice, events: seq<Event>): Nice
    decreases |events|
  {
    if events == [] then n else Run(Step(n, events[0]), events[1..])
  }

  // ----- what every run keeps

  predicate Valid(n: Nice) {
    && (n.state.Active? ==> n.stream > 0 && n.tests >= 2)
    && (n.testSent == 0 || n.testSent == 2)
    && n.timers == (if n.timerId == 0 then {} else {n.timerId})
    && n.tests + n.loops == n.arrived
    && n.testReceived == n.tests % UINT_RANGE && n.looped == n.loops % UINT_RANGE
    && n.ssrc < UINT_RANGE && n.rtpReceived < UINT_RANGE
  }

  lemma IncCounts(n: nat)
    ensures Inc(n % UINT_RANGE) == (n + 1) % UINT_RANGE
  {
    var q := n / UINT_RANGE;
    assert n == q * UINT_RANGE + n % UINT_RANGE;
  }

  lemma StepKeeps(n: Nice, e: Event)
    requires Valid(n) && Enabled(n, e)
    ensures Valid(Step(n, e))
  {
    match e
    case Receive(stream, p) => ReceiveKeeps(n, stream, p);
    case ComponentChanged(stream, c, s, freshTimer) => ComponentKeeps(n, stream, c, s, freshTimer);
    case _ =>
  }

  lemma ReceiveKeeps(n: Nice, stream: nat, p: Packet)
    requires Valid(n) && stream > 0
    ensures Valid(ReceiveStep(n, stream, p))
  {
    IncCounts(n.tests);
    IncCounts(n.loops);
  }

  lemma ComponentKeeps(n: Nice, stream: nat, c: Component, s: ComponentState, freshTimer: nat)
    requires Valid(n) && freshTimer > 0
    ensures Valid(ComponentStep(n, stream, c, s, freshTimer))
  {
  }

  /**
   * In every reachable state: media is active only on a live stream that has brought two test
   * packets, two test packets or none have been sent, at most one timer is outstanding and it is
   * the one named by dummy_timer_id, and every packet of the stream was either a test or looped.
   */
  lemma {:induction false} RunKeeps(n: Nice, events: seq<Event>)
    requires Valid(n) && Runs(n, events)
    ensures Valid(Run(n, events))
    decreases |events|
  {
    if events != [] {
      StepKeeps(n, events[0]);
      RunKeeps(Step(n, events[0]), events[1..]);
    }
  }

  lemma EveryRunKeeps(events: seq<Event>)
    requires Runs(Created, events)
    ensures Valid(Run(Created, events))
  {
    RunKeeps(Created, events);
  }

  // ----- the looped packets

  /** Only the four SSRC bytes of a looped packet can differ, and in a long packet they hold the agent's SSRC. */
  lemma LoopedDiffersOnlyInSsrc(ssrc: nat, p: Packet)
    requires ssrc < UINT_RANGE
    ensures |Looped(ssrc, p)| == |p|
    ensures forall i :: 0 <= i < |p| && !(8 <= i < 12) ==> Looped(ssrc, p)[i] == p[i]
    ensures |p| > 11 ==> Looped(ssrc, p)[8..12] == Store(ssrc) && Load(Looped(ssrc, p)[8..12]) == ssrc
    ensures |p| <= 11 ==> Looped(ssrc, p) == p
  {
    LoadStore(ssrc);
  }

  /** The SSRC picked is never the one it was derived from; it is kept only if it is not 0. */
  lemma PickedDiffers(p: Packet)
    requires IsRtp(p)
    ensures Picked(0, p) != Load(p[8..12]) && Picked(0, p) < UINT_RANGE
    ensures Picked(0, p) == 0 <==> Load(p[8..12]) == UINT_RANGE - 1
  {
  }

  predicate NoRestart(events: seq<Event>) {
    forall i :: 0 <= i < |events| ==> !events[i].Activate?
  }

  /** A picked SSRC stays for every later packet, until the agent is activated again. */
  lemma {:induction false} SsrcStays(n: Nice, events: seq<Event>)
    requires n.ssrc != 0 && NoRestart(events)
    ensures Run(n, events).ssrc == n.ssrc
    decreases |events|
  {
    if events != [] {
      SsrcStays(Step(n, events[0]), events[1..]);
    }
  }

  /** So a long packet that arrives later, however much happens in between, goes back with that SSRC. */
  lemma LaterPacketsCarrySsrc(n: Nice, events: seq<Event>, stream: nat, p: Packet)
    requires Valid(n) && n.ssrc != 0 && NoRestart(events) && |p| > 11
    ensures var later := ReceiveStep(Run(n, events), stream, p);
            later.ssrc == n.ssrc && Looped(later.ssrc, p)[8..12] == Store(n.ssrc)
  {
    SsrcStays(n, events);
    LoopedDiffersOnlyInSsrc(n.ssrc, p);
  }

  // ----- the agent

  class SscMediaNice {
    var state: MediaState
    var streamId: nat
    var gatheringDone: bool
    var timerId: nat
    var timers: set<nat>
    var rtpState: ComponentState
    var rtcpState: ComponentState
    var rtpPacketsReceived: nat
    var testPacketsReceived: nat
    var testPacketsSent: nat
    var testFailed: nat
    var loopedPackets: nat
    var ssrc: nat
    ghost var arrived: nat
    ghost var tests: nat
    ghost var loops: nat

    ghost function View(): Nice
      reads this
    {
      Nice(state, streamId, gatheringDone, timerId, timers, rtpState, rtcpState, rtpPacketsReceived,
           testPacketsReceived, testPacketsSent, testFailed, loopedPackets, ssrc, arrived, tests, loops)
    }

    constructor ()
      ensures View() == Created
    {
      state, streamId, gatheringDone, timerId, timers := Init, 0, false, 0, {};
      rtpState, rtcpState := Disconnected, Disconnected;
      rtpPacketsReceived, testPacketsReceived, testPacketsSent, testFailed, loopedPackets, ssrc := 0, 0, 0, 0, 0, 0;
      arrived, tests, loops := 0, 0, 0;
    }

    /** priv_activate_nice; `newStream` and `gathered` are what the agent answers. */
    method ActivateNice(newStream: nat, gathered: bool) returns (res: int)
      modifies this
      ensures View() == ActivateStep(old(View()), newStream, gathered)
      ensures res == if old(streamId) == 0 && newStream > 0 then 0 else -1
    {
      if streamId > 0 {
        return -1;
      }
      ResetCounters();
      AddStream(newStream);
      if gathered {
        CandidateGatheringDone();
      }
      if streamId > 0 {
        if gatheringDone {
          SignalStateChange(LocalReady);
        }
        return 0;
      }
      return -1;
    }

    method ResetCounters()
      modifies this`rtpPacketsReceived, this`testPacketsReceived, this`testPacketsSent, this`testFailed,
               this`loopedPackets,
               this`arrived, this`tests, this`loops
      ensures rtpPacketsReceived == testPacketsReceived == testPacketsSent == testFailed == loopedPackets == 0
      ensures arrived == tests == loops == 0
    {
      rtpPacketsReceived, testPacketsReceived, testPacketsSent, testFailed, loopedPackets := 0, 0, 0, 0, 0;
      arrived, tests, loops := 0, 0, 0;
    }

    method AddStream(newStream: nat)
      modifies this`gatheringDone, this`streamId, this`ssrc
      ensures !gatheringDone && streamId == newStream && ssrc == 0
    {
      gatheringDone := false;
      streamId := newStream;
      ssrc := 0;
    }

    /** ssc_media_signal_state_change, without the listeners. */
    method SignalStateChange(state: MediaState)
      modifies this`state
      ensures this.state == state
    {
      if this.state != state {
        this.state := state;
      }
    }

    method CandidateGatheringDone()
      modifies this`gatheringDone, this`state
      ensures gatheringDone && state == if streamId > 0 then LocalReady else old(state)
      ensures View() == GatheringDoneStep(old(View()))
    {
      gatheringDone := true;
      if streamId > 0 {
        SignalStateChange(LocalReady);
      }
    }

    /** cb_nice_recv: `buf` is overwritten in place before it is sent back. */
    method Recv(stream: nat, buf: array<byte>) returns (sent: bool)
      requires ssrc < UINT_RANGE
      modifies this`arrived, this`tests, this`loops, this`rtpPacketsReceived, this`testPacketsReceived,
               this`loopedPackets,
               this`ssrc, this`state, buf
      ensures View() == ReceiveStep(old(View()), stream, old(buf[..]))
      ensures sent == (old(streamId) == stream && !IsTest(old(buf[..])))
      ensures buf[..] == if sent then Looped(ssrc, old(buf[..])) else old(buf[..])
    {
      if streamId != stream {
        return false;
      }
      CountArrival(buf);
      if buf.Length == 12 && buf[1] == 0x7F {
        CountTestPacket();
        return false;
      }
      CountLoopedPacket(buf);
      if buf.Length > 11 {
        WriteSsrc(buf, ssrc);
      }
      return true;
    }

    method CountArrival(buf: array<byte>)
      modifies this`arrived, this`rtpPacketsReceived
      ensures View() == ArriveStep(old(View()), buf[..])
    {
      arrived := arrived + 1;
      if IsRtp(buf[..]) {
        rtpPacketsReceived := Inc(rtpPacketsReceived);
      }
    }

    method CountTestPacket()
      modifies this`tests, this`testPacketsReceived, this`state
      ensures View() == TestStep(old(View()))
    {
      tests := tests + 1;
      testPacketsReceived := Inc(testPacketsReceived);
      if testPacketsReceived >= 2 {
        SignalStateChange(Active);
      }
    }

    method CountLoopedPacket(buf: array<byte>)
      requires ssrc < UINT_RANGE
      modifies this`loops, this`loopedPackets, this`ssrc
      ensures View() == LoopStep(old(View()), buf[..]) && ssrc < UINT_RANGE
    {
      loops := loops + 1;
      loopedPackets := Inc(loopedPackets);
      if ssrc == 0 && IsRtp(buf[..]) {
        ssrc := Inc(Load(buf[..][8..12]));
      }
    }

    method Deactivate()
      requires !state.Disabled?
      modifies this
      ensures View() == DeactivateStep(old(View())) && state.Disabled?
    {
      streamId := 0;
      SignalStateChange(Disabled);
    }

    /** dummy_sender_tick as timer `id`; the result says whether the timer goes on. */
    method SenderTick(id: nat) returns (again: bool)
      modifies this
      ensures View() == TickStep(old(View()), id)
      ensures again == (testPacketsSent == 2 && old(testPacketsSent) == 0)
    {
      if state.Active? || state.LocalReady? {
        if testPacketsSent == 0 {
          testPacketsSent := testPacketsSent + 1;
          testPacketsSent := testPacketsSent + 1;
          return true;
        }
      }
      timerId := 0;
      timers := timers - {id};
      return false;
    }

    method ComponentStateChanged(stream: nat, c: Component, s: ComponentState, freshTimer: nat)
      requires freshTimer > 0
      modifies this`rtpState, this`rtcpState, this`timerId, this`timers, this`testFailed, this`state
      ensures View() == ComponentStep(old(View()), stream, c, s, freshTimer)
    {
      var removeTimer := false;
      RecordComponent(c, s);
      if streamId == stream {
        if rtpState.Ready? && rtcpState.Ready? {
          StartTransmission(freshTimer);
        } else if rtpState.Disconnected? && rtcpState.Disconnected? {
          removeTimer := true;
        } else if rtpState.Failed? || rtcpState.Failed? {
          removeTimer := true;
          ReportFailure();
        }
      }
      if removeTimer {
        CancelTransmission();
      }
    }

    method RecordComponent(c: Component, s: ComponentState)
      modifies this`rtpState, this`rtcpState
      ensures View() == RecordStep(old(View()), c, s)
    {
      match c {
        case Rtp => rtpState := s;
        case Rtcp => rtcpState := s;
        case Other =>
      }
    }

    method ReportFailure()
      modifies this`testFailed, this`state
      ensures View() == FailStep(old(View()))
    {
      testFailed := Inc(testFailed);
      SignalStateChange(Error);
    }

    method StartTransmission(id: nat)
      modifies this`timerId, this`timers
      ensures View() == StartTimer(old(View()), id)
    {
      if timerId == 0 {
        timerId := id;
        timers := timers + {id};
      }
    }

    method CancelTransmission()
      modifies this`timerId, this`timers
      ensures View() == CancelTimer(old(View()))
    {
      if timerId > 0 {
        timers := timers - {timerId};
        timerId := 0;
      }
    }
  }

  /** memcpy (buf + 8, &ssrc, 4) */
  method WriteSsrc(buf: array<byte>, ssrc: nat)
    requires buf.Length > 11 && ssrc < UINT_RANGE
    modifies buf
    ensures buf[..] == Looped(ssrc, old(buf[..]))
  {
    var b := Store(ssrc);
    buf[8], buf[9], buf[10], buf[11] := b[0], b[1], b[2], b[3];
  }
}
