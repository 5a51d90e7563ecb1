# Secure TCP server LED-command protocol, modelled in Dafny

The server holds one TLS client at a time. A press of user button BTN1 sends that client a
one-byte LED command: `'1'` turns the LED on, `'0'` turns it off. The client answers with a
text acknowledgment. The server keeps a *confirmed* LED state (`led_state`), and it changes
that state only when an acknowledgment arrives. Each button press sends the opposite of the
confirmed state, so a lost acknowledgment makes the next press send the same command again.

The model covers the five handlers that change the server's file-scope state:

- the GPIO interrupt handler: timestamp debounce, choice of command, and publication into
  the server task's notification slot ("store if empty, else drop");
- one iteration of the server task's loop: it consumes the notification and sends the
  command if a client is connected;
- the connection, receive and disconnection callbacks.

Module layout:

- `Rtos` (`rtos.dfy`): 32-bit unsigned tick arithmetic, and the task notification slot with
  `eSetValueWithoutOverwrite` and `xTaskNotifyWait`.
- `LedProtocol` (`protocol.dfy`): command words, the toggle, C-string termination and the
  two-way acknowledgment classifier.
- `Server` (`server.dfy`): the state record `State` and one step function per handler. The
  class `SecureTcpServer` holds the same globals as fields; each of its methods updates
  them in place and is proved to make exactly its handler's step.
- `ServerTraces` (`traces.dfy`): runs, meaning arbitrary interleavings of handler steps,
  and the protocol properties over them.
- `ServerFindings` (`findings.dfy`): two defects of the code as written, with corrected
  definitions.

Socket, TLS, tick-counter and GPIO results are parameters of the handlers. The socket calls a
handler makes (send, disconnect, delete) are returned as a list. `portTICK_PERIOD_MS` and
`MAX_TCP_RECV_BUFFER_SIZE` come from headers that are not part of this model, so they are
parameters too (`tickPeriodMs`, `recvBufferSize`, `Config`).

The code departs from a clean session design in three ways, and the model follows the code:

- A new connection does not reset `led_state` to OFF. `ReconnectKeepsLedState` proves that
  the state survives a disconnect and a reconnect.
- A closed-peer error on send or receive deletes the client socket. It does not clear
  `client_connected`, so the server does not go back to a "no session" state.
- The "armed" debounce flag `button_debouncing` is set and cleared within one interrupt. The
  gate is therefore purely the timestamp test (`DebounceGate`).

## Model

All source paths are in `proj_cm33_ns/source/secure_tcp_server.c`.

| member | source | states |
|---|---|---|
| `Rtos.Sub32` | proj_cm33_ns/source/secure_tcp_server.c:695-697 | The `uint32_t` difference is `a - b` if `a >= b`; otherwise it wraps to `2^32 + a - b`. |
| `Rtos.Mul32` | proj_cm33_ns/source/secure_tcp_server.c:695-704 | The `uint32_t` product is congruent to the true product modulo 2^32, so it is the product's low 32 bits. When the product fits in 32 bits it is the true product. |
| `Rtos.NotifyWithoutOverwrite` | proj_cm33_ns/source/secure_tcp_server.c:723-724 | After a publish the slot is pending. An empty slot takes the new value. A pending slot is left exactly as it was (drop on full). |
| `Rtos.Take` | proj_cm33_ns/source/secure_tcp_server.c:295-296 | The task receives exactly the pending value, and the slot is no longer pending. |
| `Rtos.SecondPublishDropped` | proj_cm33_ns/source/secure_tcp_server.c:723-724 | With two publishes before one consume, the consumer gets the first value and the slot is then empty. |
| `LedProtocol.EdgeCommand` | proj_cm33_ns/source/secure_tcp_server.c:711-718 | The command is `LED_OFF_CMD` iff the confirmed state is ON, and `LED_ON_CMD` iff it is OFF. It is always one of the two. |
| `LedProtocol.CString` | proj_cm33_ns/source/secure_tcp_server.c:601-605 | The compared string is a prefix of the buffer with no NUL in it. It ends at the buffer's end or at a NUL. |
| `LedProtocol.TerminatedCString` | proj_cm33_ns/source/secure_tcp_server.c:601 | After the terminator is written right after the received bytes, the bytes beyond it do not affect the comparison. |
| `LedProtocol.CStringUnique` | proj_cm33_ns/source/secure_tcp_server.c:605 | The three facts in `CString`'s contract determine its result uniquely. |
| `LedProtocol.ClassifyAck` | proj_cm33_ns/source/secure_tcp_server.c:605-612 | The classifier has two outcomes. It gives ON exactly when `strcmp` equality holds: the payload starts with "LED ON ACK" and then ends or holds a NUL. Every other payload gives OFF. |
| `LedProtocol.StrEqualsCString` | proj_cm33_ns/source/secure_tcp_server.c:601-605 | For a literal without NUL, the `strcmp` equality test holds exactly when the C string in the buffer equals the literal. |
| `LedProtocol.AckOnIff` | proj_cm33_ns/source/secure_tcp_server.c:605-612 | The classifier has two outcomes. ON iff the payload is "LED ON ACK", alone or followed by a NUL. Every other payload gives OFF. |
| `LedProtocol.OnAckMeansOn` | proj_cm33_ns/source/secure_tcp_server.c:605-607 | "LED ON ACK" confirms ON. |
| `LedProtocol.OffAckMeansOff` | proj_cm33_ns/source/secure_tcp_server.c:609-612 | "LED OFF ACK" confirms OFF. |
| `Server.DebounceElapsed` | proj_cm33_ns/source/secure_tcp_server.c:695-697 | The elapsed-time test counts across one wrap of the 32-bit millisecond clock. Without a wrap it passes iff `now >= timestamp + window`; after a wrap, iff `now + 2^32 >= timestamp + window`. |
| `Server.EdgeAccepted` | proj_cm33_ns/source/secure_tcp_server.c:693-706 | A raised debouncing flag lets every edge through. Otherwise the elapsed test decides, so an edge in the same millisecond as the last accepted one is refused unless the window has wrapped to zero. |
| `Server.RecvRequestLen` | proj_cm33_ns/source/secure_tcp_server.c:595 | As written, the length asked of `cy_socket_recv` is at least the whole buffer, so no byte is left for the terminator. |
| `Server.RecvRequestLenFixed` | proj_cm33_ns/source/secure_tcp_server.c:595 | Corrected: the length asked is below the buffer size, and exactly one byte is kept for the terminator. |
| `Server.ButtonIsr` | proj_cm33_ns/source/secure_tcp_server.c:681-741 | A BTN2-only interrupt changes nothing. A BTN1 edge leaves the debouncing flag down and changes neither `led_state` nor the connection. The timestamp moves to now only when the elapsed test passes. The toggle of `led_state`, computed at edge time, is published (drop on full) only when the edge is accepted. |
| `Server.ServerTaskWake` | proj_cm33_ns/source/secure_tcp_server.c:292-328 | The slot is consumed, and nothing else in the state changes. No client means no socket call. With a client, the first call is one `TCP_LED_CMD_LEN`-byte send of the consumed word. A closed peer adds disconnect and delete of the client socket. Other failures add nothing. |
| `Server.ConnectionHandler` | proj_cm33_ns/source/secure_tcp_server.c:547-572 | A successful accept sets the connected flag and the client handle, and leaves `led_state` alone. A failed accept changes nothing. |
| `Server.ReceiveHandler` | proj_cm33_ns/source/secure_tcp_server.c:588-631 | It needs the terminator to fit. On success only `led_state` changes, and it becomes the classified acknowledgment. On failure the state is unchanged. A closed peer gives disconnect and delete of that socket; other errors give no call. |
| `Server.DisconnectionHandler` | proj_cm33_ns/source/secure_tcp_server.c:647-664 | The connected flag is cleared and nothing else changes. The socket is disconnected, then deleted. |
| `Server.SecureTcpServer.constructor` | proj_cm33_ns/source/secure_tcp_server.c:153-166 | The globals start as: LED OFF, not connected, not debouncing, timestamp 0, nothing pending. |
| `Server.SecureTcpServer.ButtonInterrupt` | proj_cm33_ns/source/secure_tcp_server.c:681-741 | The in-place ISR makes exactly the `ButtonIsr` step and keeps the object invariant. |
| `Server.SecureTcpServer.ServerTaskIteration` | proj_cm33_ns/source/secure_tcp_server.c:292-328 | The in-place loop body makes exactly the `ServerTaskWake` step and its socket calls. |
| `Server.SecureTcpServer.OnConnection` | proj_cm33_ns/source/secure_tcp_server.c:547-572 | The in-place accept callback makes the `ConnectionHandler` step and returns the accept result. |
| `Server.SecureTcpServer.OnReceive` | proj_cm33_ns/source/secure_tcp_server.c:588-631 | It fills a `recvBufferSize` array, writes the terminator at `bytes_received` (provable only under `TerminatorFits`) and compares the C string. This is the `ReceiveHandler` step, and the result is the recv result. |
| `Server.SecureTcpServer.OnReceiveBounded` | proj_cm33_ns/source/secure_tcp_server.c:590-601 | Corrected: it asks for one byte less than the buffer, so the recv contract alone makes the terminator write safe. Otherwise the behaviour is the same. |
| `Server.SecureTcpServer.OnDisconnection` | proj_cm33_ns/source/secure_tcp_server.c:647-664 | The in-place disconnect callback makes the `DisconnectionHandler` step and returns the disconnect result. |
| `ServerTraces.StepSendCount` | proj_cm33_ns/source/secure_tcp_server.c:300-304 | A handler step sends exactly once if it is a wake-up with a pending notification and a connected client. Otherwise it does not send. |
| `ServerTraces.StepPreservesInv` | proj_cm33_ns/source/secure_tcp_server.c:693-724 | Every handler step keeps the invariant: debouncing flag down, and a pending value is a command word. |
| `ServerTraces.RunPreservesInv` | proj_cm33_ns/source/secure_tcp_server.c:700-724 | Across any interleaving of handlers the invariant holds, so `button_debouncing` is dead between handler runs. |
| `ServerTraces.LedChangesOnlyOnAck` | proj_cm33_ns/source/secure_tcp_server.c:300-326 | In any run without a successful receive, `led_state` is unchanged. Sends, send failures, edges, accepts and disconnects never write it. |
| `ServerTraces.SameCommandWithoutAck` | proj_cm33_ns/source/secure_tcp_server.c:711-718 | With no acknowledgment in between, two accepted edges publish the same command (self-correcting resend). |
| `ServerTraces.ConnectedUntilDisconnect` | proj_cm33_ns/source/secure_tcp_server.c:657 | A connected server stays connected through any run without a disconnection callback, including closed-peer errors. |
| `ServerTraces.DisconnectedUntilAccept` | proj_cm33_ns/source/secure_tcp_server.c:554-562 | A disconnected server stays disconnected, and sends nothing, through any run without a successful accept. |
| `ServerTraces.ConnectedFlagLifecycle` | proj_cm33_ns/source/secure_tcp_server.c:547-664 | In one step, only a successful accept raises the connected flag and only the disconnection callback lowers it. Closed-peer send and receive errors leave it unchanged. |
| `ServerTraces.SendsBoundedByEdges` | proj_cm33_ns/source/secure_tcp_server.c:292-304 | Sends plus a still-pending notification never exceed BTN1 edges plus the initially pending one. So a run from a state with an empty slot, such as start-up, never sends more commands than there were BTN1 presses. |
| `ServerTraces.SendsCarryCommands` | proj_cm33_ns/source/secure_tcp_server.c:303-304 | Every send in a run from a valid state carries `LED_ON_CMD` or `LED_OFF_CMD` and is `TCP_LED_CMD_LEN` long. |
| `ServerTraces.EdgeWithinWindowIgnored` | proj_cm33_ns/source/secure_tcp_server.c:693-706 | After an accepted edge, an edge whose wrapped millisecond distance is under the threshold leaves the state untouched. |
| `ServerTraces.DebounceGate` | proj_cm33_ns/source/secure_tcp_server.c:693-720 | Between handler runs, a BTN1 edge passes iff `(now*tick - timestamp) mod 2^32 >= DEBOUNCE_TIME_MS*tick`. If it passes, the timestamp moves and the toggle is published. If not, nothing changes. |
| `ServerTraces.TwoEdgesOneSend` | proj_cm33_ns/source/secure_tcp_server.c:295-304 | Two edges and then two wake-ups give exactly one send, of the first edge's command, and leave the slot empty. |
| `ServerTraces.ReconnectKeepsLedState` | proj_cm33_ns/source/secure_tcp_server.c:547-562 | A disconnect followed by a successful accept keeps `led_state` and connects the new handle. |
| `ServerTraces.RunAppend` | proj_cm33_ns/source/secure_tcp_server.c:292-328 | A run over two event lists joined end to end is the run of the first list, then the run of the second from where it stopped. |
| `ServerTraces.CommandRound` | proj_cm33_ns/source/secure_tcp_server.c:292-328 | Edge, then wake-up, then acknowledgment: exactly the toggle of the confirmed state is sent, and the acknowledgment alone sets the new confirmed state. |
| `ServerTraces.SessionFrame` | proj_cm33_ns/source/secure_tcp_server.c:547-664 | A successful accept, any run on the new connection, then the disconnection callback: the calls are the run's calls followed by disconnect and delete of that socket. |
| `ServerTraces.EndToEndSession` | proj_cm33_ns/source/secure_tcp_server.c:547-664 | Accept, then send `'1'`, ON ack, send `'0'`, OFF ack, then disconnect. Exactly those two sends are made, then disconnect and delete, and the server ends disconnected with LED OFF. |
| `ServerFindings.FullBufferOverflowsTerminator` | proj_cm33_ns/source/secure_tcp_server.c:595-601 | As written: a receive of exactly `MAX_TCP_RECV_BUFFER_SIZE` bytes meets the recv contract, but the terminator index is out of bounds. |
| `ServerFindings.FixedRequestFitsTerminator` | proj_cm33_ns/source/secure_tcp_server.c:595-601 | Corrected: every receive the reduced request allows leaves room for the terminator. |
| `ServerFindings.ServerTaskWakeFixed` | proj_cm33_ns/source/secure_tcp_server.c:316-326 | Corrected: the same socket calls and state as written, except that a closed peer also clears the connected flag. |
| `ServerFindings.ReceiveHandlerFixed` | proj_cm33_ns/source/secure_tcp_server.c:614-625 | Corrected: the same as written, except that a closed peer also clears the connected flag. |
| `ServerFindings.SendAfterDeleteAsWritten` | proj_cm33_ns/source/secure_tcp_server.c:300-326 | As written: after a closed-peer send deletes the client socket, the next accepted edge sends on that same deleted socket. |
| `ServerFindings.FixedTeardownClearsFlag` | proj_cm33_ns/source/secure_tcp_server.c:616-624 | Corrected: after either closed-peer teardown the socket is deleted and the server is not connected. |
| `ServerFindings.NoSendAfterFixedTeardown` | proj_cm33_ns/source/secure_tcp_server.c:319-325 | Corrected: after the teardown, no run without a new accept sends anything. |

## Findings

| source | as written | input that shows it | evidently intended | confidence | as-written member | corrected member |
|---|---|---|---|---|---|---|
| proj_cm33_ns/source/secure_tcp_server.c:595-601 | `cy_socket_recv` may fill all `MAX_TCP_RECV_BUFFER_SIZE` bytes of `message_buffer`; the NUL is then written at `message_buffer[bytes_received]` | a client message of exactly `MAX_TCP_RECV_BUFFER_SIZE` bytes: the write lands one past the end of the stack buffer | request at most `MAX_TCP_RECV_BUFFER_SIZE - 1` bytes so the terminator always fits | high; not executed | `ServerFindings.FullBufferOverflowsTerminator` | `Server.SecureTcpServer.OnReceiveBounded` |
| proj_cm33_ns/source/secure_tcp_server.c:316-326 | on `CY_RSLT_MODULE_SECURE_SOCKETS_CLOSED` the task (and the receive handler, lines 614-625) disconnects and deletes the client socket but leaves `client_connected` true | connected client, a press whose send fails with the closed code, then another accepted press: the second send goes to the deleted `client_handle` | tear the session down as the disconnection handler does, clearing `client_connected` | medium (the socket library might still run the disconnection callback); not executed | `ServerFindings.SendAfterDeleteAsWritten` | `ServerFindings.ServerTaskWakeFixed` |

The handlers, the class and the traces model the code as written. For the first finding, a
run is admitted only if it keeps the terminator inside the buffer (`ServerTraces.Admissible`).
`OnReceiveBounded` guarantees that from the recv contract alone. For the second finding, the
corrected handlers (`ServerTaskWakeFixed`, `ReceiveHandlerFixed`) stand beside the as-written
ones. `NoSendAfterFixedTeardown` proves what they restore.

## Left out

- Ethernet bring-up, PHY callbacks and the retry loop (`connect_to_ethernet`,
  `phy_callbacks`) are driver plumbing outside the protocol.
- Socket creation, option setup, listening and TLS identity and root-CA loading
  (`create_secure_tcp_server_socket`, task start-up) are opaque library calls. The TLS
  handshake inside `cy_socket_accept` is the accept result parameter.
- Interrupt controller and GPIO set-up, and the clearing of BTN2's interrupt flag, are
  hardware registers. A BTN2-only interrupt is a no-op.
- Real concurrency and `portYIELD_FROM_ISR` are not modelled. Each handler is one atomic
  step, and a run is any interleaving of such steps.
- All `printf` logging, `peer_addr` and `peer_addr_len`, and the unused macros
  `DEBOUNCE_DELAY` and `USER_BTN_INTR_PRIORITY` are not modelled.
- The byte layout of sending the `uint32_t` command word with length 1 depends on
  endianness. A send is recorded as the command word with its length `TCP_LED_CMD_LEN`.
- Server.ButtonIsr: the interrupt reads the tick count twice (lines 695 and 703). Both
  reads are one `ticks` parameter, assuming no tick elapses inside the interrupt.
- Server.ServerTaskWake, ServerTraces.Step: `xTaskNotifyWait` with `portMAX_DELAY` (line 295) is
  assumed never to return without a notification, which FreeRTOS guarantees only when it is
  built with `INCLUDE_vTaskSuspend == 1`; that configuration header is not part of this model.
  A wake-up with nothing pending is a no-op in the model. On a time-out the source would
  still read the uncleared notification value, and with a client connected it would send
  the last command word again, or 0 before any press. The model does not capture that.
- Server.ConnectionHandler: `client_handle` is assumed to be written only by a successful
  accept.
- The return value of `cy_socket_disconnect` and `cy_socket_delete` in the error paths is
  ignored by the source, and the model ignores it too.
- Socket, tick and GPIO results are free parameters. The model does not say which
  sequences of them the library or hardware can actually produce.
- `portTICK_PERIOD_MS` and `MAX_TCP_RECV_BUFFER_SIZE` are left as parameters, because the
  headers that define them are not part of this model.
