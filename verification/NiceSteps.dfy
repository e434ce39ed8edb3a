/**
 * What each event leaves of the ICE media agent, field by field and in numbers
 * (Lab/sofsip-cli-0.16/src/ssc_media_nice.c:147-302, 417-472 and 799-829).
 */
module NiceSteps {
  import opened MediaStates
  import opened NiceMedia

  // ----- the transmission timer

  /**
   * On the agent's stream exactly one timer is outstanding once both components are ready, the old one if
   * there was one; none once both are disconnected or one failed, and a failure puts media in error.
   * Nothing else changes, and on another stream only the component's state does.
   */
  lemma ComponentChanges(n: Nice, stream: nat, c: Component, s: ComponentState, timer: nat)
    requires Valid(n) && Enabled(n, ComponentChanged(stream, c, s, timer))
    ensures var r := Step(n, ComponentChanged(stream, c, s, timer));
            && r.rtp == (if c == Rtp then s else n.rtp) && r.rtcp == (if c == Rtcp then s else n.rtcp)
            && r == n.(rtp := r.rtp, rtcp := r.rtcp, timers := r.timers, timerId := r.timerId, state := r.state,
                       testFailed := r.testFailed)
            && if stream != n.stream then
                 r.timers == n.timers && r.state == n.state && r.testFailed == n.testFailed
               else if r.rtp == Ready && r.rtcp == Ready then
                 && r.timers == (if n.timers == {} then {timer} else n.timers)
                 && r.state == n.state && r.testFailed == n.testFailed
               else if r.rtp == Disconnected && r.rtcp == Disconnected then
                 r.timers == {} && r.state == n.state && r.testFailed == n.testFailed
               else if r.rtp == Failed || r.rtcp == Failed then
                 r.timers == {} && r.state == Error && r.testFailed == (n.testFailed + 1) % 4294967296
               else
                 r.timers == n.timers && r.state == n.state && r.testFailed == n.testFailed
  {
  }

  /** The first tick sends two test packets, if media is up by then; the next one, or one too early, ends the timer. */
  lemma TimerTicks(n: Nice, id: nat)
    requires Valid(n) && id in n.timers
    ensures Step(n, Tick(id))
            == if (n.state == Active || n.state == LocalReady) && n.testSent == 0 then n.(testSent := 2)
               else n.(timerId := 0, timers := {})
  {
  }

  /** Both components ready on a live stream: the timer starts and its first tick sends two test packets. */
  lemma TestsAreSent(events: seq<Event>, stream: nat, timer: nat)
    requires stream > 0 && timer > 0
    requires events == [Activate(stream, true), ComponentChanged(stream, Rtp, Ready, timer),
                        ComponentChanged(stream, Rtcp, Ready, timer), Tick(timer)]
    ensures Runs(Created, events) && Run(Created, events).testSent == 2 && Run(Created, events).timers == {timer}
  {
    var a := Step(Created, events[0]);
    var b := Step(a, events[1]);
    var c := Step(b, events[2]);
    var d := Step(c, events[3]);
    ComponentChanges(a, stream, Rtp, Ready, timer);
    ComponentChanges(b, stream, Rtcp, Ready, timer);
    TimerTicks(c, timer);
    RunsOn(c, events[3], []);
    RunsOn(b, events[2], [events[3]]);
    RunsOn(a, events[1], [events[2]] + [events[3]]);
    RunsOn(Created, events[0], [events[1]] + ([events[2]] + [events[3]]));
    assert events == [events[0]] + ([events[1]] + ([events[2]] + [events[3]]));
    assert [events[3]] + [] == [events[3]] && Run(d, []) == d;
  }

  lemma RunsOn(n: Nice, e: Event, more: seq<Event>)
    requires Enabled(n, e) && Runs(Step(n, e), more)
    ensures Runs(n, [e] + more) && Run(n, [e] + more) == Run(Step(n, e), more)
  {
    assert ([e] + more)[1..] == more;
  }

  // ----- packets

  /** Four bytes, the last the most significant. */
  function Little(b: seq<byte>): nat
    requires |b| == 4
  {
    b[0] as nat + 256 * b[1] as nat + 65536 * b[2] as nat + 16777216 * b[3] as nat
  }

  /** Twelve bytes with 127 in the second are a test packet: it is counted, and the second one activates media. */
  lemma TestArrives(n: Nice, p: Packet)
    requires Valid(n) && n.stream > 0 && |p| == 12 && p[1] == 127
    ensures var r := Step(n, Receive(n.stream, p));
            && r.tests == n.tests + 1 && r.loops == n.loops && r.ssrc == n.ssrc && r.looped == n.looped
            && r.testReceived == (n.tests + 1) % 4294967296
            && r.state == (if (n.tests + 1) % 4294967296 >= 2 then Active else n.state)
            && (n.tests == 0 ==> r.state == n.state) && (n.tests == 1 ==> r.state == Active)
  {
    IncCounts(n.tests);
  }

  /** Any other packet is counted as looped and never changes the state; RTP is version 2 in at least 12 bytes. */
  lemma OtherArrives(n: Nice, p: Packet)
    requires Valid(n) && n.stream > 0 && (|p| != 12 || p[1] != 127)
    ensures var r := Step(n, Receive(n.stream, p));
            && r.state == n.state && r.tests == n.tests && r.testReceived == n.testReceived
            && r.loops == n.loops + 1 && r.looped == (n.loops + 1) % 4294967296
            && r.ssrc == (if n.ssrc == 0 && |p| >= 12 && 128 <= p[0] < 192 then (Little(p[8..12]) + 1) % 4294967296
                          else n.ssrc)
  {
    IncCounts(n.loops);
  }

  /** RTP packets are counted whether they are tests or not, and a packet of another stream is ignored. */
  lemma AnyArrives(n: Nice, stream: nat, p: Packet)
    requires Valid(n) && stream > 0
    ensures var r := Step(n, Receive(stream, p));
            && (stream != n.stream ==> r == n)
            && (stream == n.stream ==>
                  && r.arrived == n.arrived + 1
                  && r.rtpReceived == (n.rtpReceived + if |p| >= 12 && 128 <= p[0] < 192 then 1 else 0) % 4294967296
                  && r.stream == n.stream && r.timers == n.timers && r.testSent == n.testSent)
  {
  }

  /** A looped packet of 12 bytes or more carries the agent's SSRC in bytes 8 to 11, least significant first. */
  lemma LoopedCarries(ssrc: nat, p: Packet)
    requires ssrc < 4294967296 && |p| >= 12
    ensures Little(Looped(ssrc, p)[8..12]) == ssrc
  {
    LoopedDiffersOnlyInSsrc(ssrc, p);
    var b := Looped(ssrc, p)[8..12];
    assert Load(b) == Little(b);
  }

  // ----- streams

  /** An activation is refused on a live stream; otherwise the counters and the SSRC start anew. */
  lemma Activates(n: Nice, stream: nat, gathered: bool)
    ensures var r := Step(n, Activate(stream, gathered));
            if n.stream > 0 then r == n
            else
              r == Nice(if stream > 0 && gathered then LocalReady else n.state, stream, gathered, n.timerId, n.timers,
                        n.rtp, n.rtcp, 0, 0, 0, 0, 0, 0, 0, 0, 0)
  {
  }

  /** Deactivation drops the stream and disables media, and leaves an outstanding timer. */
  lemma Deactivates(n: Nice)
    requires n.state != Disabled
    ensures Step(n, Deactivate) == n.(stream := 0, state := Disabled)
    ensures Step(n, GatheringDone) == n.(gatheringDone := true, state := if n.stream > 0 then LocalReady else n.state)
  {
  }
}
