/**
 * Runs of the server: any interleaving of button interrupts, server-task
 * wake-ups and socket callbacks, each handler taken as one atomic step,
 * and what the protocol guarantees over such runs.
 */
module ServerTraces {
  import opened Rtos
  import opened LedProtocol
  import opened Server

  /** Build-time constants: `portTICK_PERIOD_MS` and `MAX_TCP_RECV_BUFFER_SIZE`. */
  datatype Config = Config(tickMs: u32, recvBufferSize: nat)

  /** One handler run. */
  datatype Event =
    | ButtonEdge(btn1: bool, ticks: u32)             // the GPIO interrupt fires
    | TaskWake(send: Status)                         // the server task's wait returns
    | Accepted(accept: Status, handle: Handle)       // connection callback
    | MessageIn(sock: Handle, recv: RecvResult)      // receive callback
    | PeerGone(sock: Handle)                         // disconnection callback

  /** The receive callback only writes its terminator inside the buffer. */
  predicate Admissible(e: Event, cfg: Config) {
    e.MessageIn? ==> TerminatorFits(e.recv, cfg.recvBufferSize)
  }

  predicate AllAdmissible(evs: seq<Event>, cfg: Config) {
    forall i :: 0 <= i < |evs| ==> Admissible(evs[i], cfg)
  }

  /**
   * One atomic step. The server task blocks in `xTaskNotifyWait` while no
   * notification is pending, so a wake-up then changes nothing.
   */
  function Step(s: State, e: Event, cfg: Config): Outcome
    requires Admissible(e, cfg)
  {
    match e
    case ButtonEdge(btn1, ticks) => Outcome(ButtonIsr(s, btn1, ticks, cfg.tickMs), [])
    case TaskWake(send) => if s.slot.pending then ServerTaskWake(s, send) else Outcome(s, [])
    case Accepted(accept, handle) => Outcome(ConnectionHandler(s, accept, handle), [])
    case MessageIn(sock, recv) => ReceiveHandler(s, sock, recv, cfg.recvBufferSize)
    case PeerGone(sock) => DisconnectionHandler(s, sock)
  }

  /** The final state of a run and every socket call made along it. */
  function Run(s: State, evs: seq<Event>, cfg: Config): Outcome
    requires AllAdmissible(evs, cfg)
    decreases |evs|
  {
    if evs == [] then Outcome(s, [])
    else
      var first := Step(s, evs[0], cfg);
      assert AllAdmissible(evs[1..], cfg) by {
        forall i | 0 <= i < |evs| - 1 ensures Admissible(evs[1..][i], cfg) {
          assert evs[1..][i] == evs[i + 1];
        }
      }
      var rest := Run(first.next, evs[1..], cfg);
      Outcome(rest.next, first.calls + rest.calls)
  }

  /** Number of send calls in a list of socket calls. */
  function SendCount(calls: seq<SocketCall>): nat {
    if calls == [] then 0 else (if calls[0].Send? then 1 else 0) + SendCount(calls[1..])
  }

  /** Number of BTN1 interrupts in a run. */
  function Btn1Edges(evs: seq<Event>): nat {
    if evs == [] then 0 else (if evs[0].ButtonEdge? && evs[0].btn1 then 1 else 0) + Btn1Edges(evs[1..])
  }

  predicate IsAck(e: Event) {
    e.MessageIn? && e.recv.Received?
  }

  predicate IsSuccessfulAccept(e: Event) {
    e.Accepted? && e.accept.Success?
  }

  lemma {:induction false} SendCountAppend(a: seq<SocketCall>, b: seq<SocketCall>)
    ensures SendCount(a + b) == SendCount(a) + SendCount(b)
  {
    if a == [] {
      assert a + b == b;
    } else {
      assert (a + b)[1..] == a[1..] + b;
      SendCountAppend(a[1..], b);
    }
  }

  lemma {:induction false} SendCountNone(calls: seq<SocketCall>)
    requires forall i :: 0 <= i < |calls| ==> !calls[i].Send?
    ensures SendCount(calls) == 0
  {
    if calls != [] {
      assert !calls[0].Send?;
      SendCountNone(calls[1..]);
    }
  }

  /** Only a wake-up with a client connected sends, and then exactly once. */
  lemma StepSendCount(s: State, e: Event, cfg: Config)
    requires Admissible(e, cfg)
    ensures SendCount(Step(s, e, cfg).calls) ==
      if e.TaskWake? && s.slot.pending && s.connected then 1 else 0
  {
    var calls := Step(s, e, cfg).calls;
    if e.TaskWake? && s.slot.pending && s.connected {
      assert calls == [calls[0]] + calls[1..];
      assert calls[1..] == [] || calls[1..] == [Disconnect(s.clientHandle), Delete(s.clientHandle)];
      SendCountNone(calls[1..]);
    } else {
      SendCountNone(calls);
    }
  }

  /** Unfolding a run by its first event. */
  lemma RunCons(s: State, e: Event, evs: seq<Event>, cfg: Config)
    requires Admissible(e, cfg) && AllAdmissible(evs, cfg)
    ensures AllAdmissible([e] + evs, cfg)
    ensures var first := Step(s, e, cfg);
      var rest := Run(first.next, evs, cfg);
      Run(s, [e] + evs, cfg) == Outcome(rest.next, first.calls + rest.calls)
  {
    assert ([e] + evs)[1..] == evs;
  }

  /** Every step keeps the invariant. */
  lemma StepPreservesInv(s: State, e: Event, cfg: Config)
    requires Inv(s) && Admissible(e, cfg)
    ensures Inv(Step(s, e, cfg).next)
  {
  }

  /**
   * Between handler runs the debouncing flag is always down and a pending
   * notification always carries LED_ON_CMD or LED_OFF_CMD.
   */
  lemma {:induction false} RunPreservesInv(s: State, evs: seq<Event>, cfg: Config)
    requires Inv(s) && AllAdmissible(evs, cfg)
    ensures Inv(Run(s, evs, cfg).next)
    decreases |evs|
  {
    if evs != [] {
      StepPreservesInv(s, evs[0], cfg);
      RunPreservesInv(Step(s, evs[0], cfg).next, evs[1..], cfg);
    }
  }

  /**
   * `led_state` changes only through a successful receive: sends, their
   * failures, button edges, accepts and disconnects leave it alone.
   */
  lemma {:induction false} LedChangesOnlyOnAck(s: State, evs: seq<Event>, cfg: Config)
    requires AllAdmissible(evs, cfg)
    requires forall i :: 0 <= i < |evs| ==> !IsAck(evs[i])
    ensures Run(s, evs, cfg).next.led == s.led
    decreases |evs|
  {
    if evs != [] {
      assert !IsAck(evs[0]);
      LedChangesOnlyOnAck(Step(s, evs[0], cfg).next, evs[1..], cfg);
    }
  }

  /**
   * Self-correcting resend: with no acknowledgment received in between, a
   * later accepted edge publishes the same command as an earlier one.
   */
  lemma SameCommandWithoutAck(s: State, evs: seq<Event>, cfg: Config)
    requires AllAdmissible(evs, cfg)
    requires forall i :: 0 <= i < |evs| ==> !IsAck(evs[i])
    ensures EdgeCommand(Run(s, evs, cfg).next.led) == EdgeCommand(s.led)
  {
    LedChangesOnlyOnAck(s, evs, cfg);
  }

  /** A connected client stays connected until a disconnection callback. */
  lemma {:induction false} ConnectedUntilDisconnect(s: State, evs: seq<Event>, cfg: Config)
    requires AllAdmissible(evs, cfg) && s.connected
    requires forall i :: 0 <= i < |evs| ==> !evs[i].PeerGone?
    ensures Run(s, evs, cfg).next.connected
    decreases |evs|
  {
    if evs != [] {
      assert !evs[0].PeerGone?;
      ConnectedUntilDisconnect(Step(s, evs[0], cfg).next, evs[1..], cfg);
    }
  }

  /** Without a successful accept the server stays disconnected. */
  lemma {:induction false} DisconnectedUntilAccept(s: State, evs: seq<Event>, cfg: Config)
    requires AllAdmissible(evs, cfg) && !s.connected
    requires forall i :: 0 <= i < |evs| ==> !IsSuccessfulAccept(evs[i])
    ensures !Run(s, evs, cfg).next.connected
    ensures SendCount(Run(s, evs, cfg).calls) == 0
    decreases |evs|
  {
    if evs != [] {
      assert !IsSuccessfulAccept(evs[0]);
      var first := Step(s, evs[0], cfg);
      StepSendCount(s, evs[0], cfg);
      DisconnectedUntilAccept(first.next, evs[1..], cfg);
      SendCountAppend(first.calls, Run(first.next, evs[1..], cfg).calls);
    }
  }

  /**
   * The connected flag is set only by a successful accept and cleared only
   * by the disconnection callback; closed-peer errors do not clear it.
   */
  lemma ConnectedFlagLifecycle(s: State, e: Event, cfg: Config)
    requires Admissible(e, cfg)
    ensures var r := Step(s, e, cfg).next;
      (!s.connected && r.connected ==> IsSuccessfulAccept(e)) &&
      (s.connected && !r.connected ==> e.PeerGone?)
    ensures e == TaskWake(Failure(PeerClosed)) ==> Step(s, e, cfg).next.connected == s.connected
    ensures e.MessageIn? && e.recv == RecvFailed(PeerClosed) ==> Step(s, e, cfg).next.connected == s.connected
  {
  }

  /**
   * No duplicate delivery: every send consumes a notification, and every
   * notification was published by a BTN1 interrupt, so a run makes no more
   * sends than it has BTN1 edges (plus one if a notification was already
   * pending), and a still-pending notification is one of those edges too.
   */
  lemma {:induction false} SendsBoundedByEdges(s: State, evs: seq<Event>, cfg: Config)
    requires AllAdmissible(evs, cfg)
    ensures var o := Run(s, evs, cfg);
      SendCount(o.calls) + (if o.next.slot.pending then 1 else 0)
        <= Btn1Edges(evs) + (if s.slot.pending then 1 else 0)
    decreases |evs|
  {
    if evs != [] {
      var first := Step(s, evs[0], cfg);
      var rest := Run(first.next, evs[1..], cfg);
      SendsBoundedByEdges(first.next, evs[1..], cfg);
      SendCountAppend(first.calls, rest.calls);
      StepSendCount(s, evs[0], cfg);
    }
  }

  /** Every send carries LED_ON_CMD or LED_OFF_CMD and is TCP_LED_CMD_LEN bytes long. */
  lemma {:induction false} SendsCarryCommands(s: State, evs: seq<Event>, cfg: Config, k: nat)
    requires Inv(s) && AllAdmissible(evs, cfg)
    requires k < |Run(s, evs, cfg).calls| && Run(s, evs, cfg).calls[k].Send?
    ensures IsCommandWord(Run(s, evs, cfg).calls[k].word)
    ensures Run(s, evs, cfg).calls[k].len == TcpLedCmdLen
    decreases |evs|
  {
    if evs != [] {
      var first := Step(s, evs[0], cfg);
      StepPreservesInv(s, evs[0], cfg);
      if k >= |first.calls| {
        SendsCarryCommands(first.next, evs[1..], cfg, k - |first.calls|);
      }
    }
  }

  /**
   * Debounce: once an edge is accepted at tick `t1`, an edge at `t2` whose
   * wrapped millisecond distance from it is under the debounce threshold
   * changes nothing.
   */
  lemma EdgeWithinWindowIgnored(s: State, t1: u32, t2: u32, tickMs: u32)
    requires Inv(s) && EdgeAccepted(s, t1, tickMs)
    requires !DebounceElapsed(Mul32(t2, tickMs), Mul32(t1, tickMs), tickMs)
    ensures var s1 := ButtonIsr(s, true, t1, tickMs);
      ButtonIsr(s1, true, t2, tickMs) == s1
  {
  }

  /**
   * The debounce gate between handler runs: a BTN1 edge is accepted iff the
   * wrapped distance from the last accepted edge reaches the threshold, and
   * only then is the timestamp moved.
   */
  lemma DebounceGate(s: State, ticks: u32, tickMs: u32)
    requires Inv(s)
    ensures var r := ButtonIsr(s, true, ticks, tickMs);
      var ok := Sub32(Mul32(ticks, tickMs), s.debounceTimestamp) >= Mul32(DebounceTimeMs, tickMs);
      (ok ==> r.debounceTimestamp == Mul32(ticks, tickMs) &&
              r.slot == NotifyWithoutOverwrite(s.slot, EdgeCommand(s.led))) &&
      (!ok ==> r == s)
  {
  }

  /**
   * Two edges before one wake-up: the second is dropped, the wake-up sends
   * the first edge's command once, and a further wake-up sends nothing.
   */
  lemma TwoEdgesOneSend(s: State, t1: u32, t2: u32, send1: Status, send2: Status, cfg: Config)
    requires Inv(s) && !s.slot.pending && s.connected
    requires EdgeAccepted(s, t1, cfg.tickMs)
    ensures var o := Run(s, [ButtonEdge(true, t1), ButtonEdge(true, t2), TaskWake(send1), TaskWake(send2)], cfg);
      SendCount(o.calls) == 1 && o.calls[0] == Send(s.clientHandle, EdgeCommand(s.led), TcpLedCmdLen) &&
      !o.next.slot.pending
  {
    var e1, e2, w1, w2 := ButtonEdge(true, t1), ButtonEdge(true, t2), TaskWake(send1), TaskWake(send2);
    var s1 := ButtonIsr(s, true, t1, cfg.tickMs);
    var s2 := ButtonIsr(s1, true, t2, cfg.tickMs);
    assert s2.slot == s1.slot == NotifySlot(true, EdgeCommand(s.led));
    var o3 := ServerTaskWake(s2, send1);
    RunCons(o3.next, w2, [], cfg);
    RunCons(s2, w1, [w2], cfg);
    RunCons(s1, e2, [w1, w2], cfg);
    RunCons(s, e1, [e2, w1, w2], cfg);
    assert [e1] + ([e2] + ([w1] + [w2])) == [e1, e2, w1, w2];
    assert Step(s2, w1, cfg) == o3;
    assert Run(s, [e1, e2, w1, w2], cfg).calls == o3.calls + [] == o3.calls;
    StepSendCount(s2, w1, cfg);
  }

  /** A new connection does not reset `led_state`: it survives disconnect and reconnect. */
  lemma ReconnectKeepsLedState(s: State, sock: Handle, handle: Handle, cfg: Config)
    ensures var o := Run(s, [PeerGone(sock), Accepted(Success, handle)], cfg);
      o.next.led == s.led && o.next.connected && o.next.clientHandle == handle
  {
    var s1 := DisconnectionHandler(s, sock).next;
    RunCons(s1, Accepted(Success, handle), [], cfg);
    RunCons(s, PeerGone(sock), [Accepted(Success, handle)], cfg);
    assert [PeerGone(sock)] + [Accepted(Success, handle)] == [PeerGone(sock), Accepted(Success, handle)];
  }

  /** A run of `a + b` is the run of `a` followed by the run of `b`. */
  lemma {:induction false} RunAppend(s: State, a: seq<Event>, b: seq<Event>, cfg: Config)
    requires AllAdmissible(a, cfg) && AllAdmissible(b, cfg)
    ensures AllAdmissible(a + b, cfg)
    ensures var ra := Run(s, a, cfg);
      var rb := Run(ra.next, b, cfg);
      Run(s, a + b, cfg) == Outcome(rb.next, ra.calls + rb.calls)
    decreases |a|
  {
    assert AllAdmissible(a + b, cfg) by {
      forall i | 0 <= i < |a + b| ensures Admissible((a + b)[i], cfg) {
        if i < |a| {
          assert (a + b)[i] == a[i];
        } else {
          assert (a + b)[i] == b[i - |a|];
        }
      }
    }
    if a == [] {
      assert a + b == b;
    } else {
      var first := Step(s, a[0], cfg);
      assert AllAdmissible(a[1..], cfg) by {
        forall i | 0 <= i < |a| - 1 ensures Admissible(a[1..][i], cfg) {
          assert a[1..][i] == a[i + 1];
        }
      }
      RunAppend(first.next, a[1..], b, cfg);
      RunCons(s, a[0], a[1..] + b, cfg);
      assert [a[0]] + (a[1..] + b) == a + b;
      var r1 := Run(first.next, a[1..], cfg);
      var rb := Run(r1.next, b, cfg);
      assert first.calls + (r1.calls + rb.calls) == (first.calls + r1.calls) + rb.calls;
    }
  }

  /**
   * One command round with a client connected: an accepted edge, the task
   * sending its command, and the client's acknowledgment `ack`. Exactly
   * the toggle of the confirmed state is sent, and the acknowledgment alone
   * decides the new confirmed state.
   */
  lemma CommandRound(s: State, t: u32, ack: seq<char>, cfg: Config)
    requires Inv(s) && s.connected && !s.slot.pending
    requires DebounceElapsed(Mul32(t, cfg.tickMs), s.debounceTimestamp, cfg.tickMs)
    requires |ack| < cfg.recvBufferSize
    ensures var evs := [ButtonEdge(true, t), TaskWake(Success), MessageIn(s.clientHandle, Received(ack))];
      AllAdmissible(evs, cfg) &&
      var o := Run(s, evs, cfg);
      o.calls == [Send(s.clientHandle, EdgeCommand(s.led), TcpLedCmdLen)] &&
      Inv(o.next) && o.next.connected && !o.next.slot.pending && o.next.clientHandle == s.clientHandle &&
      o.next.led == ClassifyAck(ack) && o.next.debounceTimestamp == Mul32(t, cfg.tickMs)
  {
    var h := s.clientHandle;
    var e1, e2, e3 := ButtonEdge(true, t), TaskWake(Success), MessageIn(h, Received(ack));
    var s1 := ButtonIsr(s, true, t, cfg.tickMs);
    var o2 := ServerTaskWake(s1, Success);
    var s3 := ReceiveHandler(o2.next, h, Received(ack), cfg.recvBufferSize).next;
    RunCons(o2.next, e3, [], cfg);
    RunCons(s1, e2, [e3], cfg);
    RunCons(s, e1, [e2, e3], cfg);
    assert [e3] + [] == [e3];
    assert [e2] + [e3] == [e2, e3];
    assert [e1] + [e2, e3] == [e1, e2, e3];
  }

  /**
   * A session frame: a successful accept, any run `mid` on the new
   * connection, and the disconnection callback on its socket.
   */
  lemma SessionFrame(s: State, h: Handle, mid: seq<Event>, cfg: Config)
    requires AllAdmissible(mid, cfg)
    ensures AllAdmissible([Accepted(Success, h)] + mid + [PeerGone(h)], cfg)
    ensures var o := Run(ConnectionHandler(s, Success, h), mid, cfg);
      Run(s, [Accepted(Success, h)] + mid + [PeerGone(h)], cfg) ==
        Outcome(DisconnectionHandler(o.next, h).next, o.calls + [Disconnect(h), Delete(h)])
  {
    var accept, gone := [Accepted(Success, h)], [PeerGone(h)];
    var s1 := ConnectionHandler(s, Success, h);
    RunCons(s, Accepted(Success, h), [], cfg);
    assert [Accepted(Success, h)] + [] == accept;
    var s3 := Run(s1, mid, cfg).next;
    RunCons(s3, PeerGone(h), [], cfg);
    assert [PeerGone(h)] + [] == gone;
    RunAppend(s, accept, mid, cfg);
    RunAppend(s, accept + mid, gone, cfg);
  }

  /**
   * End to end: accept; a button edge sends LED_ON_CMD; an ON
   * acknowledgment ("LED ON ACK", see OnAckMeansOn) confirms ON; the next
   * edge sends LED_OFF_CMD; an OFF acknowledgment ("LED OFF ACK", see
   * OffAckMeansOff) confirms OFF; the disconnection callback ends the
   * session.
   */
  lemma EndToEndSession(s: State, h: Handle, t1: u32, t2: u32, onAck: seq<char>, offAck: seq<char>, cfg: Config)
    requires Inv(s) && !s.connected && !s.slot.pending && s.led == Off
    requires |onAck| < cfg.recvBufferSize && ClassifyAck(onAck) == On
    requires |offAck| < cfg.recvBufferSize && ClassifyAck(offAck) == Off
    requires DebounceElapsed(Mul32(t1, cfg.tickMs), s.debounceTimestamp, cfg.tickMs)
    requires DebounceElapsed(Mul32(t2, cfg.tickMs), Mul32(t1, cfg.tickMs), cfg.tickMs)
    ensures var evs := [Accepted(Success, h)]
                     + [ButtonEdge(true, t1), TaskWake(Success), MessageIn(h, Received(onAck))]
                     + [ButtonEdge(true, t2), TaskWake(Success), MessageIn(h, Received(offAck))]
                     + [PeerGone(h)];
      AllAdmissible(evs, cfg) &&
      Run(s, evs, cfg).calls == [Send(h, LedOnCmd, TcpLedCmdLen), Send(h, LedOffCmd, TcpLedCmdLen),
                                 Disconnect(h), Delete(h)] &&
      var r := Run(s, evs, cfg).next;
      !r.connected && r.led == Off && !r.slot.pending
  {
    var round1 := [ButtonEdge(true, t1), TaskWake(Success), MessageIn(h, Received(onAck))];
    var round2 := [ButtonEdge(true, t2), TaskWake(Success), MessageIn(h, Received(offAck))];
    var s1 := ConnectionHandler(s, Success, h);
    CommandRound(s1, t1, onAck, cfg);
    CommandRound(Run(s1, round1, cfg).next, t2, offAck, cfg);
    RunAppend(s1, round1, round2, cfg);
    SessionFrame(s, h, round1 + round2, cfg);
    assert [Accepted(Success, h)] + round1 + round2 + [PeerGone(h)]
        == [Accepted(Success, h)] + (round1 + round2) + [PeerGone(h)];
  }
}
