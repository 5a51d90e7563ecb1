/**
 * Two defects of the handlers as written, each shown by a concrete input,
 * next to the corrected behaviour and the property it restores.
 */
module ServerFindings {
  import opened Rtos
  import opened LedProtocol
  import opened Server
  import opened ServerTraces

  /*
   * 1. The receive handler asks `cy_socket_recv` for up to
   *    MAX_TCP_RECV_BUFFER_SIZE bytes into a buffer of that size, then
   *    writes the terminator at index `bytes_received`.
   */

  /**
   * As written, a full buffer satisfies the receive contract, yet the
   * terminator would land one past the end of `message_buffer`.
   */
  lemma FullBufferOverflowsTerminator(bufferSize: nat)
    ensures var recv := Received(seq(bufferSize, _ => 'A'));
      RecvContract(recv, RecvRequestLen(bufferSize)) && !TerminatorFits(recv, bufferSize)
  {
  }

  /** With the corrected length, every receive the contract allows fits the terminator. */
  lemma FixedRequestFitsTerminator(bufferSize: nat, recv: RecvResult)
    requires bufferSize > 0
    requires RecvContract(recv, RecvRequestLenFixed(bufferSize))
    ensures TerminatorFits(recv, bufferSize)
  {
  }

  /*
   * 2. On `CY_RSLT_MODULE_SECURE_SOCKETS_CLOSED` the server task and the
   *    receive handler disconnect and delete the client socket but leave
   *    `client_connected` set, so the next accepted button edge sends on the
   *    deleted socket.
   */

  /** The server task's iteration with the closed-peer teardown also clearing the flag. */
  function ServerTaskWakeFixed(s: State, send: Status): (o: Outcome)
    requires s.slot.pending
    ensures o.calls == ServerTaskWake(s, send).calls
    ensures o.next.connected == (s.connected && send != Failure(PeerClosed))
    ensures o.next.(connected := s.connected) == ServerTaskWake(s, send).next
  {
    var o := ServerTaskWake(s, send);
    if s.connected && send == Failure(PeerClosed) then o.(next := o.next.(connected := false)) else o
  }

  /** The receive handler with the closed-peer teardown also clearing the flag. */
  function ReceiveHandlerFixed(s: State, sock: Handle, recv: RecvResult, bufferSize: nat): (o: Outcome)
    requires TerminatorFits(recv, bufferSize)
    ensures o.calls == ReceiveHandler(s, sock, recv, bufferSize).calls
    ensures o.next.connected == (s.connected && recv != RecvFailed(PeerClosed))
    ensures o.next.(connected := s.connected) == ReceiveHandler(s, sock, recv, bufferSize).next
  {
    var o := ReceiveHandler(s, sock, recv, bufferSize);
    if recv == RecvFailed(PeerClosed) then o.(next := o.next.(connected := false)) else o
  }

  /**
   * As written: a send that finds the peer closed deletes the client socket,
   * and the next accepted edge's wake-up sends on that same socket again.
   */
  lemma SendAfterDeleteAsWritten(s: State, t: u32, send2: Status, cfg: Config)
    requires Inv(s) && s.connected && s.slot.pending
    requires EdgeAccepted(s, t, cfg.tickMs)
    ensures var h := s.clientHandle;
      var o := Run(s, [TaskWake(Failure(PeerClosed)), ButtonEdge(true, t), TaskWake(send2)], cfg);
      |o.calls| >= 4 &&
      o.calls[..3] == [Send(h, s.slot.value, TcpLedCmdLen), Disconnect(h), Delete(h)] &&
      o.calls[3] == Send(h, EdgeCommand(s.led), TcpLedCmdLen)
  {
    var w1, e, w2 := TaskWake(Failure(PeerClosed)), ButtonEdge(true, t), TaskWake(send2);
    var o1 := ServerTaskWake(s, Failure(PeerClosed));
    var s2 := ButtonIsr(o1.next, true, t, cfg.tickMs);
    assert s2.slot == NotifySlot(true, EdgeCommand(s.led)) && s2.connected;
    var o3 := ServerTaskWake(s2, send2);
    RunCons(o3.next, w2, [], cfg);
    assert Run(s2, [w2], cfg).calls == o3.calls by {
      assert [w2] + [] == [w2];
      assert o3.calls + [] == o3.calls;
    }
    RunCons(o1.next, e, [w2], cfg);
    RunCons(s, w1, [e, w2], cfg);
    assert [w1] + ([e] + [w2]) == [w1, e, w2];
    assert Run(s, [w1, e, w2], cfg).calls == o1.calls + ([] + o3.calls);
  }

  /** Corrected: after the closed-peer teardown of either path the client is no longer connected. */
  lemma FixedTeardownClearsFlag(s: State, sock: Handle, bufferSize: nat)
    requires s.slot.pending
    ensures var o := ServerTaskWakeFixed(s, Failure(PeerClosed));
      s.connected ==> Delete(s.clientHandle) in o.calls && !o.next.connected
    ensures var o := ReceiveHandlerFixed(s, sock, RecvFailed(PeerClosed), bufferSize);
      Delete(sock) in o.calls && !o.next.connected
  {
    var o := ServerTaskWakeFixed(s, Failure(PeerClosed));
    if s.connected {
      assert o.calls[2] == Delete(s.clientHandle);
    }
  }

  /**
   * Corrected: after the fixed closed-peer teardown, no run without a new
   * successful accept sends anything (on the deleted socket or any other).
   */
  lemma NoSendAfterFixedTeardown(s: State, evs: seq<Event>, cfg: Config)
    requires s.slot.pending && AllAdmissible(evs, cfg)
    requires forall i :: 0 <= i < |evs| ==> !IsSuccessfulAccept(evs[i])
    ensures var o := ServerTaskWakeFixed(s, Failure(PeerClosed));
      SendCount(Run(o.next, evs, cfg).calls) == 0 && !Run(o.next, evs, cfg).next.connected
  {
    var o := ServerTaskWakeFixed(s, Failure(PeerClosed));
    DisconnectedUntilAccept(o.next, evs, cfg);
  }
}
