/** The pulse-generator application of main.c: two periodic flash tasks sharing a
    mutex, a button-polling task and the interrupt feeding a 20-slot queue of
    half-periods, and an event-driven task draining the notifications the
    interrupt gives. Each task step and each interrupt is one atomic method on
    the Application object that main() builds; delays are recorded in the output
    trace and scheduling is left to whoever calls the steps. */
module PulseGenerator {
  import opened Board
  import opened FreeRtos
  import opened PortJIsr

  /** struct adcTaskParams_ without the two handles, which every task shares. */
  datatype AdcTaskParams = AdcTaskParams(
    pin: bv8,
    port: Port,
    defaultHalfFlashDuration: nat,
    taskExecutionPeriodMs: nat,
    flashCount: nat)

  /** xQueueCreate(20, sizeof(unsigned int)). */
  const QueueLength: nat := 20

  /** adcTP0_ and adcTP1_ as main() fills them in. */
  const AdcTaskHighParams := AdcTaskParams(Pin0, PortN, 500, 10000, 5)
  const AdcTaskLowParams := AdcTaskParams(Pin0, PortF, 300, 0, 1)

  /** buttonServiceTP_: button J0, pushing 110 when pressed. */
  const ButtonPort := PortJ
  const ButtonPin := Pin0
  const ModifiedHalfFlashDuration: nat := 110

  /** The value main() hands to configureISR. */
  const ModifiedHalfFlashDurationIsr: nat := 60

  /** C strcmp on NUL-free strings: the sign of the first differing character,
      with the end of a string (its NUL) below every character. */
  function StrCmp(a: string, b: string): (r: int)
    ensures -1 <= r <= 1
    ensures r == 0 <==> a == b
    decreases |a|
  {
    if a == [] then (if b == [] then 0 else -1)
    else if b == [] then 1
    else if a[0] != b[0] then (if a[0] < b[0] then -1 else 1)
    else
      var rest := StrCmp(a[1..], b[1..]);
      assert rest == 0 ==> a == [a[0]] + a[1..] == [b[0]] + b[1..] == b;
      rest
  }

  /** StrCmp orders strings: swapping the arguments flips the sign. */
  lemma {:induction false} StrCmpAntisymmetric(a: string, b: string)
    ensures StrCmp(a, b) == -StrCmp(b, a)
    decreases |a|
  {
    if a != [] && b != [] && a[0] == b[0] {
      StrCmpAntisymmetric(a[1..], b[1..]);
    }
  }

  /** The task-name test of adcTask_: only the task named "adcTaskLow" reads the
      queue. */
  predicate IsQueueConsumer(taskName: string)
  {
    taskName == "adcTaskLow"
  }

  /** The test as the task writes it, 0 == strcmp("adcTaskLow", TaskName), holds
      exactly for the queue consumer. */
  lemma StrCmpSelectsQueueConsumer(taskName: string)
    ensures StrCmp("adcTaskLow", taskName) == 0 <==> IsQueueConsumer(taskName)
    ensures StrCmp("adcTaskLow", "adcTaskHigh") != 0
  {
  }

  /** The half-period of one flash cycle, and the queue it leaves behind. Every
      cycle starts from the default; only a queue consumer that finds the queue
      non-empty overrides it, with the head, which it removes. */
  function ChooseHalfFlashDuration(defaultHalf: nat, consumer: bool, items: seq<nat>): (r: (nat, seq<nat>))
    ensures consumer && items != [] ==> r.0 == items[0] && r.1 == items[1..]
    ensures !(consumer && items != []) ==> r.0 == defaultHalf && r.1 == items
    ensures r.0 != defaultHalf ==> consumer && items != []
  {
    if consumer then
      match Received(items)
      case (Some(v), rest) => (v, rest)
      case (None, rest) => (defaultHalf, rest)
    else (defaultHalf, items)
  }

  /** The queue consumer is the low task, never the high one. */
  lemma HighTaskLeavesQueueAlone(items: seq<nat>)
    ensures !IsQueueConsumer("adcTaskHigh") && IsQueueConsumer("adcTaskLow")
    ensures ChooseHalfFlashDuration(AdcTaskHighParams.defaultHalfFlashDuration, IsQueueConsumer("adcTaskHigh"), items)
            == (500, items)
  {
    assert "adcTaskHigh"[7] != "adcTaskLow"[7];
  }

  /** An override lasts one cycle only: two consumer cycles in a row start from
      the same default, the first takes the head, and the second sees only what
      the first left behind, so it runs at the next queued value if there is one
      and at the default otherwise. */
  lemma OverrideDoesNotPersist(defaultHalf: nat, items: seq<nat>)
    ensures ChooseHalfFlashDuration(defaultHalf, true, items).0 == if items != [] then items[0] else defaultHalf
    ensures ChooseHalfFlashDuration(defaultHalf, true, ChooseHalfFlashDuration(defaultHalf, true, items).1)
            == if |items| >= 2 then (items[1], items[2..]) else (defaultHalf, [])
  {
  }

  /** One pulse: pin high, wait half a period, pin low, wait half a period. */
  function Pulse(port: Port, pin: bv8, half: nat): seq<Output>
  {
    [Write(port, pin, 1), Delay(half), Write(port, pin, 0), Delay(half)]
  }

  /** The outputs of a series of `count` pulses. */
  function FlashSeries(port: Port, pin: bv8, half: nat, count: nat): (outs: seq<Output>)
    ensures |outs| == 4 * count
  {
    if count == 0 then [] else FlashSeries(port, pin, half, count - 1) + Pulse(port, pin, half)
  }

  /** Output k of a series: a high write, a delay, a low write and a delay, in
      turn, all on the task's own port and pin. */
  lemma {:induction false} FlashSeriesAt(port: Port, pin: bv8, half: nat, count: nat, k: nat)
    requires k < 4 * count
    ensures FlashSeries(port, pin, half, count)[k]
            == if k % 4 == 0 then Write(port, pin, 1)
               else if k % 4 == 2 then Write(port, pin, 0)
               else Delay(half)
    decreases count
  {
    if k < 4 * (count - 1) {
      FlashSeriesAt(port, pin, half, count - 1, k);
    } else {
      assert FlashSeries(port, pin, half, count)[k] == Pulse(port, pin, half)[k - 4 * (count - 1)];
    }
  }

  /** After a non-empty series the task's pin is low; an empty series leaves it as
      it was; no other bit of the task's port and no bit of any other port
      changes. */
  lemma FlashSeriesLevels(before: seq<Output>, port: Port, pin: bv8, half: nat, count: nat,
                          otherPort: Port, initial: bv8)
    ensures count > 0 ==> PortLevel(before + FlashSeries(port, pin, half, count), port, initial) & pin == 0
    ensures count == 0 ==> PortLevel(before + FlashSeries(port, pin, half, count), port, initial)
                           == PortLevel(before, port, initial)
    ensures PortLevel(before + FlashSeries(port, pin, half, count), port, initial) & !pin
            == PortLevel(before, port, initial) & !pin
    ensures otherPort != port ==> PortLevel(before + FlashSeries(port, pin, half, count), otherPort, initial)
                                  == PortLevel(before, otherPort, initial)
  {
    var series := FlashSeries(port, pin, half, count);
    var outs := before + series;
    if count > 0 {
      var n := |outs|;
      assert outs[n - 1] == Delay(half) by { FlashSeriesAt(port, pin, half, count, 4 * count - 1); }
      assert outs[n - 2] == Write(port, pin, 0) by { FlashSeriesAt(port, pin, half, count, 4 * count - 2); }
      assert outs[..n - 1][..n - 2] == outs[..n - 2];
    } else {
      assert outs == before;
    }
    forall k | 0 <= k < |series|
      ensures series[k].Write? && series[k].port == port ==> series[k].pins & !pin == 0
      ensures !(series[k].Write? && series[k].port == otherPort && otherPort != port)
    {
      FlashSeriesAt(port, pin, half, count, k);
    }
    PortLevelUntouched(before, series, port, !pin, initial);
    if otherPort != port {
      PortLevelUntouched(before, series, otherPort, AllPins, initial);
    }
  }

  /** Where a flash task is in its cycle: waiting to take the mutex, holding it
      with this cycle's half-period chosen, or holding it with the burst done. */
  datatype FlashPhase = Idle | Locked(halfFlashDuration: nat) | Flashed

  /** Everything main() creates, plus the one global the tasks update. */
  class Application {
    const queue: Queue
    const mutex: Mutex
    const adcTaskHigh: Task
    const adcTaskLow: Task
    const dataProcessingTask: Task
    const isr: Isr
    var phase: map<Task, FlashPhase>
    /** What the flash tasks drive onto their pins, with their delays. */
    var outputs: seq<Output>
    /** activationCounterJ1_ (an unsigned int). */
    var activationCounter: Uint32

    /** The system invariant: the queue never holds more than 20 values, a flash
        task is inside its critical section exactly when it holds the mutex, only
        a flash task ever holds the mutex, and the ISR is configured as main() did. */
    ghost predicate Valid()
      reads this, queue, mutex, isr
    {
      && queue.Valid() && queue.capacity == QueueLength
      && adcTaskHigh.name == "adcTaskHigh" && adcTaskLow.name == "adcTaskLow"
      && adcTaskHigh != adcTaskLow
      && phase.Keys == {adcTaskHigh, adcTaskLow}
      && (forall t :: t in phase ==> (phase[t] != Idle <==> mutex.holder == t))
      && (mutex.holder != null ==> mutex.holder in phase)
      && isr.switchQueue == queue && isr.eventDrivenTask == dataProcessingTask
      && isr.modifiedHalfFlashDuration == ModifiedHalfFlashDurationIsr
    }

    /** The parameters main() passes to each flash task. */
    function ParamsOf(t: Task): AdcTaskParams
    {
      if t == adcTaskHigh then AdcTaskHighParams else AdcTaskLowParams
    }

    /** main(): create the queue and the mutex, the tasks, and configure the ISR. */
    constructor ()
      ensures Valid()
      ensures fresh(queue) && fresh(mutex) && fresh(isr)
      ensures fresh(adcTaskHigh) && fresh(adcTaskLow) && fresh(dataProcessingTask)
      ensures queue.items == [] && mutex.holder == null
      ensures phase == map[adcTaskHigh := Idle, adcTaskLow := Idle]
      ensures outputs == [] && activationCounter == 0
      ensures dataProcessingTask.notifyValue == 0
    {
      var q := new Queue(QueueLength);
      var m := new Mutex();
      var high := new Task("adcTaskHigh");
      var low := new Task("adcTaskLow");
      var processing := new Task("dataProcessingTask");
      var handler := new Isr();
      handler.Configure(q, processing, ModifiedHalfFlashDurationIsr);
      queue, mutex, isr := q, m, handler;
      adcTaskHigh, adcTaskLow, dataProcessingTask := high, low, processing;
      phase := map[high := Idle, low := Idle];
      outputs := [];
      activationCounter := 0;
    }

    /** At most one flash task is ever between taking and giving the mutex. */
    lemma MutualExclusion(t: Task, u: Task)
      requires Valid() && t in phase && u in phase
      requires phase[t] != Idle && phase[u] != Idle
      ensures t == u
    {
    }

    /** Start of a cycle of adcTask_: take the mutex (a task that finds it held
        stays blocked and nothing changes), then choose this cycle's half-period. */
    method FlashCycleStart(t: Task) returns (acquired: bool)
      requires Valid() && t in phase && phase[t] == Idle
      modifies this, mutex, queue
      ensures Valid()
      ensures acquired <==> old(mutex.holder) == null
      ensures acquired ==> mutex.holder == t
      ensures acquired ==>
        var chosen := ChooseHalfFlashDuration(ParamsOf(t).defaultHalfFlashDuration, IsQueueConsumer(t.name), old(queue.items));
        phase == old(phase)[t := Locked(chosen.0)] && queue.items == chosen.1
      ensures !acquired ==> mutex.holder == old(mutex.holder) && phase == old(phase) && queue.items == old(queue.items)
      ensures outputs == old(outputs) && activationCounter == old(activationCounter)
    {
      acquired := mutex.Take(t);
      if acquired {
        ghost var waiting := queue.items;
        var consumer := IsQueueConsumer(t.name);
        var halfFlashDuration := ParamsOf(t).defaultHalfFlashDuration;
        if consumer {
          var message := queue.Receive();
          if message.Some? {
            halfFlashDuration := message.value;
          }
        }
        assert (halfFlashDuration, queue.items)
               == ChooseHalfFlashDuration(ParamsOf(t).defaultHalfFlashDuration, consumer, waiting);
        phase := phase[t := Locked(halfFlashDuration)];
      }
    }

    /** The burst of adcTask_, run while holding the mutex. */
    method Burst(t: Task)
      requires Valid() && t in phase && phase[t].Locked?
      modifies this`outputs, this`phase
      ensures Valid() && mutex.holder == t
      ensures outputs == old(outputs) + FlashSeries(ParamsOf(t).port, ParamsOf(t).pin,
                                                    old(phase[t]).halfFlashDuration, ParamsOf(t).flashCount)
      ensures phase == old(phase)[t := Flashed]
    {
      var params := ParamsOf(t);
      var half := phase[t].halfFlashDuration;
      var flashCounter := 0;
      while flashCounter < params.flashCount
        invariant flashCounter <= params.flashCount
        invariant outputs == old(outputs) + FlashSeries(params.port, params.pin, half, flashCounter)
        modifies this`outputs
      {
        ghost var before := outputs;
        outputs := outputs + [Write(params.port, params.pin, 1)];
        outputs := outputs + [Delay(half)];
        outputs := outputs + [Write(params.port, params.pin, 0)];
        outputs := outputs + [Delay(half)];
        assert outputs == before + Pulse(params.port, params.pin, half);
        flashCounter := flashCounter + 1;
      }
      phase := phase[t := Flashed];
    }

    /** End of a cycle of adcTask_: give the mutex back. */
    method FlashCycleEnd(t: Task)
      requires Valid() && t in phase && phase[t] == Flashed
      modifies this, mutex
      ensures Valid() && mutex.holder == null
      ensures phase == old(phase)[t := Idle]
      ensures outputs == old(outputs) && activationCounter == old(activationCounter)
    {
      mutex.Give(t);
      phase := phase[t := Idle];
    }

    /** One poll of buttonServiceTask_: `buttonLevel` is what GPIOPinRead returns
        for ButtonPin of ButtonPort (0 while the button is pressed). */
    method ButtonServiceStep(buttonLevel: bv8)
      requires Valid()
      modifies queue
      ensures Valid()
      ensures queue.items == if buttonLevel == 0 then Sent(old(queue.items), QueueLength, ModifiedHalfFlashDuration)
                             else old(queue.items)
    {
      if buttonLevel == 0 {
        var _ := queue.Send(ModifiedHalfFlashDuration);
      }
    }

    /** The port J interrupt firing: see PortJIsr.Isr.GpioPortJIsr. Every task of
        this application reads and writes the queue with a zero block time, so no
        task ever waits on it and the queue's woken flag is always pdFALSE;
        `notifyWoke` is whether the notification wakes dataProcessingTask_ above
        the interrupted task. vTaskNotifyGiveFromISR reports a wake only when the
        notified task leaves the Blocked state, and dataProcessingTask_ blocks in
        ulTaskNotifyTake only while its value is 0, so a wake needs a value of 0. */
    method PortJInterrupt(mis: bv32, notifyWoke: bool) returns (yieldRequested: bool)
      requires Valid()
      requires notifyWoke ==> dataProcessingTask.notifyValue == 0
      modifies isr, queue, dataProcessingTask
      ensures Valid()
      ensures queue.items == if Pin1Pending(mis) then Sent(old(queue.items), QueueLength, ModifiedHalfFlashDurationIsr)
                             else old(queue.items)
      ensures dataProcessingTask.notifyValue
              == old(dataProcessingTask.notifyValue) + (if Pin1Pending(mis) then 1 else 0)
      ensures isr.icr == mis
      ensures yieldRequested <==> Pin1Pending(mis) && notifyWoke
      ensures yieldRequested ==> old(dataProcessingTask.notifyValue) == 0
    {
      yieldRequested := isr.GpioPortJIsr(mis, false, notifyWoke);
    }

    /** One round of dataProcessingTask_: while the notification value is zero the
        task stays blocked; otherwise it takes and clears the whole value and
        counts every event into activationCounterJ1_. */
    method DataProcessingStep() returns (eventsProcessed: nat)
      requires Valid()
      modifies this, dataProcessingTask
      ensures Valid()
      ensures eventsProcessed == old(dataProcessingTask.notifyValue)
      ensures dataProcessingTask.notifyValue == 0
      ensures activationCounter == (old(activationCounter) + eventsProcessed) % Word
      ensures phase == old(phase) && outputs == old(outputs)
    {
      if dataProcessingTask.notifyValue == 0 {
        assert activationCounter % Word == activationCounter;
        return 0;
      }
      var eventsToProcessCount: nat := dataProcessingTask.NotifyTake();
      eventsProcessed := eventsToProcessCount;
      while eventsToProcessCount > 0
        invariant eventsToProcessCount <= eventsProcessed
        invariant dataProcessingTask.notifyValue == 0
        invariant activationCounter == (old(activationCounter) + (eventsProcessed - eventsToProcessCount)) % Word
        invariant phase == old(phase) && outputs == old(outputs)
      {
        activationCounter := (activationCounter + 1) % Word;
        eventsToProcessCount := eventsToProcessCount - 1;
      }
    }
  }

  /** The producers and the event task: a press of J0 queues 110, an edge on J1
      queues 60 and gives one notification, and one drain counts the one event. */
  method ProducersScenario()
  {
    var app := new Application();
    app.ButtonServiceStep(0);
    var _ := app.PortJInterrupt(0x02, true);
    assert app.queue.items == [110, 60] && app.dataProcessingTask.notifyValue == 1;
    var processed := app.DataProcessingStep();
    assert processed == 1 && app.activationCounter == 1;
  }

  /** A queued override lasts one cycle: with 110 and 60 queued, the low task's
      next two cycles run at 110 and then at 60, emptying the queue. */
  method OverrideScenario()
  {
    var app := new Application();
    app.ButtonServiceStep(0);
    var _ := app.PortJInterrupt(0x02, false);
    var acquired := app.FlashCycleStart(app.adcTaskLow);
    assert acquired && app.phase[app.adcTaskLow] == Locked(110) && app.queue.items == [60];
    app.Burst(app.adcTaskLow);
    app.FlashCycleEnd(app.adcTaskLow);
    acquired := app.FlashCycleStart(app.adcTaskLow);
    assert app.phase[app.adcTaskLow] == Locked(60) && app.queue.items == [];
  }

  /** The two flash tasks contending: while the high task holds the mutex the low
      one stays blocked, the high task's burst is five pulses of 500 ticks on PN0
      and leaves the queue alone, and once it gives the mutex the low task gets it. */
  method MutexScenario()
  {
    var app := new Application();
    app.ButtonServiceStep(0);
    var acquired := app.FlashCycleStart(app.adcTaskHigh);
    assert acquired && app.phase[app.adcTaskHigh] == Locked(500) && app.queue.items == [110] by {
      HighTaskLeavesQueueAlone([110]);
    }
    acquired := app.FlashCycleStart(app.adcTaskLow);
    assert !acquired;
    app.Burst(app.adcTaskHigh);
    assert app.outputs == FlashSeries(PortN, Pin0, 500, 5);
    app.FlashCycleEnd(app.adcTaskHigh);
    acquired := app.FlashCycleStart(app.adcTaskLow);
    assert acquired && app.phase[app.adcTaskLow] == Locked(110);
  }
}
