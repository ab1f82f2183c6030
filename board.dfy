/** Board-level vocabulary shared by the tasks and drivers: the GPIO ports in use,
    the pin masks of the TivaWare driver library, 32-bit machine words and the
    trace of what the program drives onto its output pins. */
module Board {

  /** A 32-bit unsigned machine word (uint32_t / unsigned int on the target). */
  type Uint32 = x: int | 0 <= x < 0x1_0000_0000

  const Word: int := 0x1_0000_0000

  /** GPIO ports used by the lab; the register base addresses are not modelled. */
  datatype Port = PortF | PortJ | PortL | PortN

  /** Pin masks as the driver library defines them (GPIO_PIN_n == 1 << n). */
  const Pin0: bv8 := 0x01
  const AllPins: bv8 := 0xFF

  /** One observable effect of a task: a GPIOPinWrite(port, pins, value), or a
      suspension of the writing task for a number of ticks (vTaskDelay). */
  datatype Output = Write(port: Port, pins: bv8, value: bv8) | Delay(ticks: nat)

  /** The data register of `port` after the writes in `outs`, starting from
      `initial`: GPIOPinWrite(port, pins, value) changes exactly the bits in
      `pins`, to the bits of `value` there, and keeps every other bit. */
  function PortLevel(outs: seq<Output>, port: Port, initial: bv8): bv8
  {
    if outs == [] then initial
    else
      var last := outs[|outs| - 1];
      var prev := PortLevel(outs[..|outs| - 1], port, initial);
      if last.Write? && last.port == port then (prev & !last.pins) | (last.value & last.pins)
      else prev
  }

  /** Appending outputs that write no bit of `mask` on `port` leaves those bits of
      its data register alone. */
  lemma {:induction false} PortLevelUntouched(outs: seq<Output>, more: seq<Output>, port: Port, mask: bv8, initial: bv8)
    requires forall k :: 0 <= k < |more| && more[k].Write? && more[k].port == port ==> more[k].pins & mask == 0
    ensures PortLevel(outs + more, port, initial) & mask == PortLevel(outs, port, initial) & mask
    decreases |more|
  {
    if more != [] {
      var m := more[..|more| - 1];
      assert (outs + more)[..|outs + more| - 1] == outs + m;
      assert (outs + more)[|outs + more| - 1] == more[|more| - 1];
      PortLevelUntouched(outs, m, port, mask, initial);
    } else {
      assert outs + more == outs;
    }
  }
}
