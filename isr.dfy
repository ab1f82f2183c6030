/** The interrupt service routine of GPIO port J and the statics it is configured
    with (isr.c). The hardware registers it touches are inputs (the masked
    interrupt status it reads) and state (the interrupt-clear register it writes). */
module PortJIsr {
  import opened Board
  import opened FreeRtos

  /** GPIO_PIN_1 as a 32-bit register mask. */
  const Pin1Mask: bv32 := 0x02

  /** Whether the masked interrupt status says pin 1 (button J1) fired. */
  predicate Pin1Pending(mis: bv32)
  {
    mis & Pin1Mask != 0
  }

  class Isr {
    /** The statics switchQueue_, eventDrivenTask_ and modifiedHalfFlashDurationIsr_. */
    var switchQueue: Queue?
    var eventDrivenTask: Task?
    var modifiedHalfFlashDuration: nat
    /** The last value written to GPIO_PORTJ_AHB_ICR_R. */
    var icr: bv32

    /** Statics start zero-initialised (null handles, value 0). */
    constructor ()
      ensures switchQueue == null && eventDrivenTask == null
      ensures modifiedHalfFlashDuration == 0 && icr == 0
    {
      switchQueue := null;
      eventDrivenTask := null;
      modifiedHalfFlashDuration := 0;
      icr := 0;
    }

    /** configureISR: store the three arguments verbatim and nothing else. */
    method Configure(queue: Queue?, task: Task?, value: nat)
      modifies this
      ensures switchQueue == queue && eventDrivenTask == task
      ensures modifiedHalfFlashDuration == value
      ensures icr == old(icr)
    {
      switchQueue := queue;
      eventDrivenTask := task;
      modifiedHalfFlashDuration := value;
    }

    /** gpioPortJIsr. `mis` is the value read from GPIO_PORTJ_AHB_MIS_R;
        `queueWoke` is whether a successful send would wake a task waiting on the
        queue, and `notifyWoke` whether the notification wakes a task of higher
        priority than the interrupted one; both depend on the scheduler's state,
        so they are inputs here. A send refused by a full queue leaves its flag
        pdFALSE. The result is the argument given to portYIELD_FROM_ISR. */
    method GpioPortJIsr(mis: bv32, queueWoke: bool, notifyWoke: bool) returns (yieldRequested: bool)
      requires switchQueue != null && eventDrivenTask != null
      requires switchQueue.Valid()
      modifies this, switchQueue, eventDrivenTask
      ensures icr == mis
      ensures switchQueue == old(switchQueue) && eventDrivenTask == old(eventDrivenTask)
      ensures modifiedHalfFlashDuration == old(modifiedHalfFlashDuration)
      ensures switchQueue.Valid()
      ensures switchQueue.items
              == if Pin1Pending(mis) then Sent(old(switchQueue.items), switchQueue.capacity, modifiedHalfFlashDuration)
                 else old(switchQueue.items)
      ensures eventDrivenTask.notifyValue
              == old(eventDrivenTask.notifyValue) + (if Pin1Pending(mis) then 1 else 0)
      ensures yieldRequested
              <==> Pin1Pending(mis) && ((|old(switchQueue.items)| < switchQueue.capacity && queueWoke) || notifyWoke)
    {
      icr := mis;
      var woken0 := false;
      var woken1 := false;
      if Pin1Pending(mis) {
        var sent := switchQueue.Send(modifiedHalfFlashDuration);
        woken0 := sent && queueWoke;
        eventDrivenTask.NotifyGiveFromIsr();
        woken1 := notifyWoke;
      }
      yieldRequested := woken0 || woken1;
    }
  }
}
