/**
 * The FreeRTOS facilities the server relies on: 32-bit unsigned tick
 * arithmetic and the per-task notification slot used with
 * `eSetValueWithoutOverwrite` (publish) and `xTaskNotifyWait` (consume).
 */
module Rtos {

  const Modulus32: int := 0x1_0000_0000

  /** A C `uint32_t` (also FreeRTOS's `TickType_t` with 32-bit ticks). */
  newtype u32 = x: int | 0 <= x < 0x1_0000_0000

  /** Unsigned 32-bit subtraction, which wraps around modulo 2^32. */
  function Sub32(a: u32, b: u32): (r: u32)
    ensures a >= b ==> r as int == a as int - b as int
    ensures a < b ==> r as int == Modulus32 + a as int - b as int
  {
    ((a as int - b as int) % Modulus32) as u32
  }

  /** Unsigned 32-bit multiplication, which keeps the low 32 bits. */
  function Mul32(a: u32, b: u32): (r: u32)
    ensures a as int * b as int < Modulus32 ==> r as int == a as int * b as int
    ensures (r as int - a as int * b as int) % Modulus32 == 0
  {
    var product := a as int * b as int;
    assert 0 <= product;
    (product % Modulus32) as u32
  }

  /**
   * A task's notification state: whether a notification is pending and the
   * 32-bit notification value. The value is not cleared when the task
   * consumes the notification (both clear masks are 0 in the server).
   */
  datatype NotifySlot = NotifySlot(pending: bool, value: u32)

  const EmptySlot: NotifySlot := NotifySlot(false, 0)

  /**
   * `xTaskNotifyFromISR(task, v, eSetValueWithoutOverwrite, ...)`: the value
   * is stored only if no notification is pending; otherwise the call fails
   * and the pending value is kept.
   */
  function NotifyWithoutOverwrite(slot: NotifySlot, v: u32): (r: NotifySlot)
    ensures r.pending
    ensures !slot.pending ==> r.value == v
    ensures slot.pending ==> r == slot
  {
    if slot.pending then slot else NotifySlot(true, v)
  }

  /**
   * `xTaskNotifyWait(0, 0, &v, portMAX_DELAY)` once a notification is
   * pending: the task receives the value and the slot is no longer pending.
   */
  function Take(slot: NotifySlot): (r: (u32, NotifySlot))
    requires slot.pending
    ensures r.0 == slot.value
    ensures !r.1.pending && r.1.value == slot.value
  {
    (slot.value, slot.(pending := false))
  }

  /** Drop on full: a second publish before a consume leaves the first value in place. */
  lemma SecondPublishDropped(slot: NotifySlot, v1: u32, v2: u32)
    requires !slot.pending
    ensures Take(NotifyWithoutOverwrite(NotifyWithoutOverwrite(slot, v1), v2)).0 == v1
    ensures !Take(NotifyWithoutOverwrite(NotifyWithoutOverwrite(slot, v1), v2)).1.pending
  {
  }
}
