/**
 * The LED command/acknowledgment protocol: the one-byte commands the server
 * sends, the choice of command from the confirmed LED state, and the
 * classification of the client's textual acknowledgment.
 */
module LedProtocol {
  import opened Rtos

  /** The confirmed LED state (`led_state`). */
  datatype LedState = On | Off

  /** Number of bytes sent per command (`TCP_LED_CMD_LEN`). */
  const TcpLedCmdLen: nat := 1

  /** `LED_ON_CMD` ('1') and `LED_OFF_CMD` ('0') held in a 32-bit command word. */
  const LedOnCmd: u32 := 0x31
  const LedOffCmd: u32 := 0x30

  const NulCharacter: char := '\0'

  /** The acknowledgment literal the receive handler compares against. */
  const LedOnAck: string := "LED ON ACK"

  predicate IsCommandWord(w: u32) {
    w == LedOnCmd || w == LedOffCmd
  }

  /** The command an accepted button edge publishes: the toggle of the confirmed state. */
  function EdgeCommand(led: LedState): (cmd: u32)
    ensures IsCommandWord(cmd)
    ensures cmd == LedOffCmd <==> led == On
    ensures cmd == LedOnCmd <==> led == Off
  {
    match led
    case On => LedOffCmd
    case Off => LedOnCmd
  }

  /** The C string a buffer holds: its bytes up to (not including) the first NUL. */
  function CString(buf: seq<char>): (r: seq<char>)
    ensures r <= buf
    ensures NulCharacter !in r
    ensures |r| < |buf| ==> buf[|r|] == NulCharacter
  {
    if buf == [] || buf[0] == NulCharacter then [] else [buf[0]] + CString(buf[1..])
  }

  /**
   * What `strcmp(buf, lit) == 0` means for a literal `lit` without NUL: the
   * buffer starts with `lit` and then ends or holds a NUL.
   */
  predicate StrEquals(buf: seq<char>, lit: seq<char>) {
    && |lit| <= |buf|
    && (forall i :: 0 <= i < |lit| ==> buf[i] == lit[i])
    && (|buf| == |lit| || buf[|lit|] == NulCharacter)
  }

  /**
   * The receive handler's decision: ON exactly when `strcmp` finds the
   * terminated payload equal to "LED ON ACK"; any other payload means OFF.
   */
  function ClassifyAck(payload: seq<char>): (r: LedState)
    ensures r == On <==> StrEquals(payload, LedOnAck)
  {
    StrEqualsCString(payload, LedOnAck);
    if CString(payload) == LedOnAck then On else Off
  }

  /** A terminator written right after the data hides whatever follows it. */
  lemma {:induction false} TerminatedCString(data: seq<char>, rest: seq<char>)
    ensures CString(data + [NulCharacter] + rest) == CString(data)
  {
    if data == [] {
    } else {
      assert (data + [NulCharacter] + rest)[1..] == data[1..] + [NulCharacter] + rest;
      TerminatedCString(data[1..], rest);
    }
  }

  /** CString is exactly determined by its three defining facts. */
  lemma {:induction false} CStringUnique(buf: seq<char>, r: seq<char>)
    requires r <= buf && NulCharacter !in r
    requires |r| < |buf| ==> buf[|r|] == NulCharacter
    ensures CString(buf) == r
  {
    if buf == [] || buf[0] == NulCharacter {
    } else {
      assert r != [] && r[0] == buf[0];
      CStringUnique(buf[1..], r[1..]);
      assert r == [r[0]] + r[1..];
    }
  }

  /** `StrEquals` compares exactly the C string the buffer holds. */
  lemma StrEqualsCString(buf: seq<char>, lit: seq<char>)
    requires NulCharacter !in lit
    ensures StrEquals(buf, lit) <==> CString(buf) == lit
  {
    if StrEquals(buf, lit) {
      assert buf[..|lit|] == lit;
      CStringUnique(buf, lit);
    }
  }

  /**
   * Two-way classifier, stated in closed form: the payload is confirmed ON
   * iff it is "LED ON ACK" exactly or "LED ON ACK" followed by a NUL;
   * every other payload (empty, truncated, longer, corrupted) means OFF.
   */
  lemma AckOnIff(payload: seq<char>)
    ensures ClassifyAck(payload) == On <==>
      payload == LedOnAck || LedOnAck + [NulCharacter] <= payload
  {
    StrEqualsCString(payload, LedOnAck);
    if payload == LedOnAck {
      CStringUnique(payload, LedOnAck);
    } else if LedOnAck + [NulCharacter] <= payload {
      CStringUnique(payload, LedOnAck);
    }
  }

  /** The client's "LED ON ACK" reply confirms ON. */
  lemma OnAckMeansOn()
    ensures ClassifyAck(LedOnAck) == On
  {
  }

  /** The client's "LED OFF ACK" reply confirms OFF. */
  lemma OffAckMeansOff()
    ensures ClassifyAck("LED OFF ACK") == Off
  {
  }
}
