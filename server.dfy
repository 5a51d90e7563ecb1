/**
 * The secure TCP server's event handlers over its file-scope globals
 * (`led_state`, `client_connected`, `button_debouncing`,
 * `button_debounce_timestamp`, `client_handle`) and the server task's
 * notification slot.
 *
 * Each handler is given twice: as a step function on the value `State`
 * (used by the trace lemmas in ServerTraces), and as a method of the class
 * `SecureTcpServer` that updates the fields in place and is proved to make
 * exactly that step. Socket, tick and GPIO results are parameters; the
 * socket calls a handler makes are returned as a list.
 */
module Server {
  import opened Rtos
  import opened LedProtocol

  /** `DEBOUNCE_TIME_MS`. */
  const DebounceTimeMs: u32 := 100

  /** An opaque `cy_socket_t`. */
  type Handle = nat

  /** A failed socket call: `CY_RSLT_MODULE_SECURE_SOCKETS_CLOSED`, or any other code. */
  datatype SockError = PeerClosed | OtherError(code: nat)

  /** The `cy_rslt_t` of a socket call. */
  datatype Status = Success | Failure(err: SockError)

  /** What `cy_socket_recv` delivered: the bytes received, or an error. */
  datatype RecvResult = Received(data: seq<char>) | RecvFailed(err: SockError)

  /** A socket library call made by a handler. */
  datatype SocketCall =
    | Send(handle: Handle, word: u32, len: nat)
    | Disconnect(handle: Handle)
    | Delete(handle: Handle)

  datatype State = State(
    led: LedState,               // led_state
    connected: bool,             // client_connected
    debouncing: bool,            // button_debouncing
    debounceTimestamp: u32,      // button_debounce_timestamp
    slot: NotifySlot,            // the server task's notification
    clientHandle: Handle         // client_handle
  )

  /** A handler's effect: the new state and the socket calls it made, in order. */
  datatype Outcome = Outcome(next: State, calls: seq<SocketCall>)

  /** The globals at start-up (`client_connected` and `client_handle` are zero-initialised). */
  const Initial: State := State(Off, false, false, 0, EmptySlot, 0)

  /**
   * What holds between handler runs: the debouncing flag is down, and a
   * pending notification carries a command word.
   */
  predicate Inv(s: State) {
    !s.debouncing && (s.slot.pending ==> IsCommandWord(s.slot.value))
  }

  /**
   * The debounce test: at least `DEBOUNCE_TIME_MS` ticks' worth of ms since
   * the last accepted edge, the elapsed time being counted across one wrap
   * of the 32-bit ms clock.
   */
  function DebounceElapsed(nowMs: u32, timestamp: u32, tickMs: u32): (r: bool)
    ensures nowMs >= timestamp ==>
      (r <==> nowMs as int >= timestamp as int + Mul32(DebounceTimeMs, tickMs) as int)
    ensures nowMs < timestamp ==>
      (r <==> nowMs as int + Modulus32 >= timestamp as int + Mul32(DebounceTimeMs, tickMs) as int)
  {
    Sub32(nowMs, timestamp) >= Mul32(DebounceTimeMs, tickMs)
  }

  /**
   * Whether a BTN1 edge with this tick count gets past the debounce gate.
   * A raised debouncing flag lets every edge through; otherwise the elapsed
   * test decides, so a second edge in the same millisecond is refused
   * unless the window has wrapped to zero.
   */
  function EdgeAccepted(s: State, ticks: u32, tickMs: u32): (r: bool)
    ensures s.debouncing ==> r
    ensures !s.debouncing ==> (r <==> DebounceElapsed(Mul32(ticks, tickMs), s.debounceTimestamp, tickMs))
    ensures !s.debouncing && Mul32(ticks, tickMs) == s.debounceTimestamp ==>
      (r <==> Mul32(DebounceTimeMs, tickMs) == 0)
  {
    s.debouncing || DebounceElapsed(Mul32(ticks, tickMs), s.debounceTimestamp, tickMs)
  }

  /**
   * `user_button_interrupt_handler`: `btn1` is BTN1's interrupt status and
   * `ticks` the tick count read in the handler. An accepted edge publishes
   * the toggle of the confirmed LED state, unless a notification is pending.
   */
  function ButtonIsr(s: State, btn1: bool, ticks: u32, tickMs: u32): (r: State)
    ensures !btn1 ==> r == s
    ensures btn1 ==> !r.debouncing
    ensures r.led == s.led && r.connected == s.connected && r.clientHandle == s.clientHandle
    ensures r.debounceTimestamp ==
      if btn1 && !s.debouncing && DebounceElapsed(Mul32(ticks, tickMs), s.debounceTimestamp, tickMs)
      then Mul32(ticks, tickMs) else s.debounceTimestamp
    ensures r.slot ==
      if btn1 && EdgeAccepted(s, ticks, tickMs)
      then NotifyWithoutOverwrite(s.slot, EdgeCommand(s.led)) else s.slot
  {
    if !btn1 then s
    else
      var nowMs := Mul32(ticks, tickMs);
      var s1 :=
        if !s.debouncing && DebounceElapsed(nowMs, s.debounceTimestamp, tickMs)
        then s.(debouncing := true, debounceTimestamp := nowMs)
        else s;
      if s1.debouncing
      then s1.(debouncing := false, slot := NotifyWithoutOverwrite(s1.slot, EdgeCommand(s1.led)))
      else s1
  }

  /**
   * One iteration of the `while(true)` loop of `tcp_secure_server_task`,
   * once `xTaskNotifyWait` has returned: with a client connected, one
   * `TCP_LED_CMD_LEN`-byte send of the command word; a closed peer makes
   * the task disconnect and delete the client socket. `send` is the send's
   * result, consulted only when a send is made.
   */
  function ServerTaskWake(s: State, send: Status): (o: Outcome)
    requires s.slot.pending
    ensures o.next == s.(slot := s.slot.(pending := false))
    ensures !s.connected ==> o.calls == []
    ensures s.connected ==> |o.calls| >= 1 && o.calls[0] == Send(s.clientHandle, s.slot.value, TcpLedCmdLen)
    ensures s.connected && send == Failure(PeerClosed) ==>
      o.calls[1..] == [Disconnect(s.clientHandle), Delete(s.clientHandle)]
    ensures s.connected && send != Failure(PeerClosed) ==> |o.calls| == 1
  {
    var (cmd, slot) := Take(s.slot);
    var next := s.(slot := slot);
    if !s.connected then Outcome(next, [])
    else
      var sent := Send(s.clientHandle, cmd, TcpLedCmdLen);
      match send
      case Success => Outcome(next, [sent])
      case Failure(PeerClosed) =>
        Outcome(next, [sent, Disconnect(s.clientHandle), Delete(s.clientHandle)])
      case Failure(_) => Outcome(next, [sent])
  }

  /**
   * `tcp_connection_handler`: `accept` is the result of `cy_socket_accept`
   * (TLS handshake included) and `handle` the client socket it yields.
   */
  function ConnectionHandler(s: State, accept: Status, handle: Handle): (r: State)
    ensures accept.Success? ==> r.connected && r.clientHandle == handle
    ensures accept.Failure? ==> r == s
    ensures r.led == s.led && r.slot == s.slot && r.debounceTimestamp == s.debounceTimestamp
    ensures r.debouncing == s.debouncing
  {
    if accept.Success? then s.(connected := true, clientHandle := handle) else s
  }

  /**
   * The index the receive handler writes its terminator to must be inside
   * `message_buffer`, i.e. fewer than `MAX_TCP_RECV_BUFFER_SIZE` bytes may
   * have been received.
   */
  predicate TerminatorFits(recv: RecvResult, bufferSize: nat) {
    recv.Received? ==> |recv.data| < bufferSize
  }

  /**
   * What `cy_socket_recv` promises when asked for at most `maxLen` bytes:
   * it never delivers more.
   */
  predicate RecvContract(recv: RecvResult, maxLen: nat) {
    recv.Received? ==> |recv.data| <= maxLen
  }

  /**
   * The length the receive handler passes to `cy_socket_recv`, as written:
   * the whole of `message_buffer`, which leaves no byte for the terminator.
   */
  function RecvRequestLen(bufferSize: nat): (n: nat)
    ensures n >= bufferSize
  {
    bufferSize
  }

  /** The corrected length: exactly one byte of the buffer is kept for the terminator. */
  function RecvRequestLenFixed(bufferSize: nat): (n: nat)
    requires bufferSize > 0
    ensures n < bufferSize
    ensures n + 1 == bufferSize
  {
    bufferSize - 1
  }

  /**
   * `tcp_receive_msg_handler` on client socket `sock`: a successful receive
   * sets the confirmed LED state from the acknowledgment; a closed peer
   * makes it disconnect and delete `sock`; nothing else changes.
   */
  function ReceiveHandler(s: State, sock: Handle, recv: RecvResult, bufferSize: nat): (o: Outcome)
    requires TerminatorFits(recv, bufferSize)
    ensures recv.Received? ==> o.next == s.(led := ClassifyAck(recv.data)) && o.calls == []
    ensures recv.RecvFailed? ==> o.next == s
    ensures recv == RecvFailed(PeerClosed) ==> o.calls == [Disconnect(sock), Delete(sock)]
    ensures recv.RecvFailed? && recv.err.OtherError? ==> o.calls == []
  {
    match recv
    case Received(data) => Outcome(s.(led := ClassifyAck(data)), [])
    case RecvFailed(PeerClosed) => Outcome(s, [Disconnect(sock), Delete(sock)])
    case RecvFailed(_) => Outcome(s, [])
  }

  /** `tcp_disconnection_handler` on client socket `sock`. */
  function DisconnectionHandler(s: State, sock: Handle): (o: Outcome)
    ensures !o.next.connected
    ensures o.next.led == s.led && o.next.slot == s.slot && o.next.clientHandle == s.clientHandle
    ensures o.next.debouncing == s.debouncing && o.next.debounceTimestamp == s.debounceTimestamp
    ensures o.calls == [Disconnect(sock), Delete(sock)]
  {
    Outcome(s.(connected := false), [Disconnect(sock), Delete(sock)])
  }

  /**
   * The server's globals, updated in place by its handlers. `tickPeriodMs`
   * is `portTICK_PERIOD_MS` and `recvBufferSize` is
   * `MAX_TCP_RECV_BUFFER_SIZE`, both fixed at build time.
   */
  class SecureTcpServer {
    var ledState: LedState
    var clientConnected: bool
    var buttonDebouncing: bool
    var buttonDebounceTimestamp: u32
    var notifyPending: bool
    var notifyValue: u32
    var clientHandle: Handle
    const tickPeriodMs: u32
    const recvBufferSize: nat

    function Snapshot(): State
      reads this
    {
      State(ledState, clientConnected, buttonDebouncing, buttonDebounceTimestamp,
            NotifySlot(notifyPending, notifyValue), clientHandle)
    }

    ghost predicate Valid()
      reads this
    {
      recvBufferSize > 0 && Inv(Snapshot())
    }

    constructor (tickPeriodMs: u32, recvBufferSize: nat)
      requires recvBufferSize > 0
      ensures Valid() && Snapshot() == Initial
      ensures this.tickPeriodMs == tickPeriodMs && this.recvBufferSize == recvBufferSize
    {
      ledState := Off;
      clientConnected := false;
      buttonDebouncing := false;
      buttonDebounceTimestamp := 0;
      notifyPending, notifyValue := false, 0;
      clientHandle := 0;
      this.tickPeriodMs := tickPeriodMs;
      this.recvBufferSize := recvBufferSize;
    }

    /** `user_button_interrupt_handler`; a BTN2-only interrupt (`btn1` false) changes nothing. */
    method ButtonInterrupt(btn1: bool, ticks: u32)
      requires Valid()
      modifies this
      ensures Valid()
      ensures Snapshot() == ButtonIsr(old(Snapshot()), btn1, ticks, tickPeriodMs)
    {
      if btn1 {
        if !buttonDebouncing {
          if Sub32(Mul32(ticks, tickPeriodMs), buttonDebounceTimestamp) >= Mul32(DebounceTimeMs, tickPeriodMs) {
            buttonDebouncing := true;
            buttonDebounceTimestamp := Mul32(ticks, tickPeriodMs);
          }
        }
        if buttonDebouncing {
          var cmd: u32;
          if ledState == On {
            cmd := LedOffCmd;
          } else {
            cmd := LedOnCmd;
          }
          buttonDebouncing := false;
          if !notifyPending {
            notifyPending, notifyValue := true, cmd;
          }
        }
      }
    }

    /**
     * One iteration of the server task's loop after `xTaskNotifyWait` has
     * returned, so a notification is pending.
     */
    method ServerTaskIteration(send: Status) returns (calls: seq<SocketCall>)
      requires Valid() && notifyPending
      modifies this
      ensures Valid()
      ensures Snapshot() == ServerTaskWake(old(Snapshot()), send).next
      ensures calls == ServerTaskWake(old(Snapshot()), send).calls
    {
      var ledStateCmd := notifyValue;
      notifyPending := false;
      calls := [];
      if clientConnected {
        calls := [Send(clientHandle, ledStateCmd, TcpLedCmdLen)];
        if send != Success {
          if send.err == PeerClosed {
            calls := calls + [Disconnect(clientHandle), Delete(clientHandle)];
          }
        }
      }
    }

    /** `tcp_connection_handler`; returns the accept result. */
    method OnConnection(accept: Status, handle: Handle) returns (result: Status)
      requires Valid()
      modifies this
      ensures Valid()
      ensures Snapshot() == ConnectionHandler(old(Snapshot()), accept, handle)
      ensures result == accept
    {
      result := accept;
      if result == Success {
        clientHandle := handle;
        clientConnected := true;
      }
    }

    /**
     * `tcp_receive_msg_handler`, as written: `cy_socket_recv` may fill all
     * `recvBufferSize` bytes, but the terminator write needs fewer, so the
     * handler is only safe under `TerminatorFits`.
     */
    method OnReceive(sock: Handle, recv: RecvResult) returns (result: Status, calls: seq<SocketCall>)
      requires Valid()
      requires TerminatorFits(recv, recvBufferSize)
      modifies this
      ensures Valid()
      ensures result == if recv.Received? then Success else Failure(recv.err)
      ensures Snapshot() == ReceiveHandler(old(Snapshot()), sock, recv, recvBufferSize).next
      ensures calls == ReceiveHandler(old(Snapshot()), sock, recv, recvBufferSize).calls
    {
      var messageBuffer := new char[recvBufferSize];
      calls := [];
      match recv
      case Received(data) =>
        result := Success;
        var bytesReceived := |data|;
        forall i | 0 <= i < bytesReceived {
          messageBuffer[i] := data[i];
        }
        messageBuffer[bytesReceived] := NulCharacter;
        assert messageBuffer[..] == data + [NulCharacter] + messageBuffer[bytesReceived + 1..];
        TerminatedCString(data, messageBuffer[bytesReceived + 1..]);
        if CString(messageBuffer[..]) == LedOnAck {
          ledState := On;
        } else {
          ledState := Off;
        }
      case RecvFailed(err) =>
        result := Failure(err);
        if err == PeerClosed {
          calls := [Disconnect(sock), Delete(sock)];
        }
    }

    /**
     * The receive handler with the terminator write made safe: it asks
     * `cy_socket_recv` for at most `RecvRequestLenFixed(recvBufferSize)`
     * bytes, so the receive contract alone keeps the terminator inside the buffer.
     */
    method OnReceiveBounded(sock: Handle, recv: RecvResult) returns (result: Status, calls: seq<SocketCall>)
      requires Valid()
      requires RecvContract(recv, RecvRequestLenFixed(recvBufferSize))
      modifies this
      ensures Valid()
      ensures result == if recv.Received? then Success else Failure(recv.err)
      ensures Snapshot() == ReceiveHandler(old(Snapshot()), sock, recv, recvBufferSize).next
      ensures calls == ReceiveHandler(old(Snapshot()), sock, recv, recvBufferSize).calls
    {
      result, calls := OnReceive(sock, recv);
    }

    /** `tcp_disconnection_handler`; returns the result of `cy_socket_disconnect`. */
    method OnDisconnection(sock: Handle, disconnect: Status) returns (result: Status, calls: seq<SocketCall>)
      requires Valid()
      modifies this
      ensures Valid()
      ensures Snapshot() == DisconnectionHandler(old(Snapshot()), sock).next
      ensures calls == DisconnectionHandler(old(Snapshot()), sock).calls
      ensures result == disconnect
    {
      result := disconnect;
      calls := [Disconnect(sock), Delete(sock)];
      clientConnected := false;
    }
  }
}
