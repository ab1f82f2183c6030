# RTSCLAB4 pulse generator and echo display, modelled in Dafny

This project models the logic of a FreeRTOS lab on a TM4C1294 board, in two parts.

The first part is the pulse-generator application (`main.c`, `isr.c`). It has these pieces:

- Two periodic flash tasks, `adcTaskHigh` and `adcTaskLow`, share one mutex. Each one emits a burst of pulses on its own pin.
- The low task may take its half-period for one cycle from a queue of 20 `unsigned int` values.
- That queue is fed by two producers: a task polling button J0, and the port J interrupt for button J1.
- The interrupt also gives a task notification. An event-driven task drains it into `activationCounterJ1_`.

The second part is the newer ultrasonic display (`NEW/ultrasonic.c`, `NEW/led_pendulum.c`). The echo interrupt measures a pulse width with a 16-bit wrap formula and stores a distance. The pendulum lights one of eight LEDs for that distance.

Modules, one per source file or component:

- `Board` (board.dfy): ports, pin masks, 32-bit words, the trace of GPIO writes and delays, and each port's data register as those writes leave it, bit by bit.
- `FreeRtos` (freertos.dfy): the kernel objects the application uses, with their documented semantics.
  - The queue is a class over a `seq<nat>` with a capacity.
  - A task handle carries a `nat` notification value.
  - A mutex records its holder.
  - The module also has lemmas about whole histories of queue and notification calls.
- `PortJIsr` (isr.dfy): the statics of `isr.c` as fields of class `Isr`, with `configureISR` and `gpioPortJIsr` as methods.
- `PulseGenerator` (main.dfy): everything `main()` builds, as class `Application`. Each task step and each interrupt is one atomic method on it. Beside the class are the functions that specify the half-period choice and the burst.
- `Ultrasonic` (ultrasonic.dfy): the two module statics as class `EchoSensor`, the pulse-width function, and a replay of echo interrupts.
- `LedPendulum` (led_pendulum.dfy): the index and bit-pattern functions.

A blocking call with an unbounded wait is an atomic step. While the call would block, the step leaves everything unchanged and the task stays where it is. This applies to `xSemaphoreTake` and to `ulTaskNotifyTake` with `portMAX_DELAY`.

Points where the code decides behaviour that a reader might expect otherwise:

- Both flash tasks are created with priority 1 (main.c:67-68), despite their names. Only the mutex orders them.
- The low task is told apart by comparing its task name with `"adcTaskLow"` (main.c:171). The model keeps that comparison as `StrCmp` and proves that it selects exactly `IsQueueConsumer`.
- The interrupt clears every pending bit it read (isr.c:47), not only the bit of pin 1.

## Model

| member | source | states |
|---|---|---|
| `FreeRtos.Queue.constructor` | main.c:77 | The queue is created empty with capacity 20. |
| `FreeRtos.Queue.Send` | main.c:220 | A send succeeds iff the queue holds fewer than `capacity` items. On success the value is appended at the tail; on failure the queue is unchanged. The capacity invariant holds afterwards. |
| `FreeRtos.Queue.Receive` | main.c:178-181 | A receive on an empty queue returns nothing and leaves it empty. Otherwise it returns the head and removes exactly that element. |
| `FreeRtos.SentKeepsCapacity` | main.c:76-77 | A send never takes the queue past its capacity. On a full queue it is dropped and nothing is evicted. Otherwise the old contents are kept as a prefix and the value becomes the new tail. |
| `FreeRtos.RunIsFifo` | main.c:74-77 | For any interleaving of sends and receives, the values received followed by those still queued equal the initial contents followed by every accepted value, in acceptance order. The length never exceeds the capacity. |
| `FreeRtos.SendsKeepPrefix` | main.c:76-77 | Sends with no receive in between leave the old contents followed by the longest prefix of the sent values that fits. For example, 25 sends into an empty 20-slot queue keep exactly the first 20. |
| `FreeRtos.SendsToFullQueue` | main.c:220 | Every send to a full queue fails and changes nothing. |
| `FreeRtos.Task.NotifyGiveFromIsr` | isr.c:60-61 | The notification value grows by exactly 1. |
| `FreeRtos.Task.NotifyTake` | main.c:235-236 | Called only once the value is non-zero, as `ulTaskNotifyTake` with `portMAX_DELAY` never returns 0. Returns the whole accumulated value, which is positive, and clears it to 0. |
| `FreeRtos.NotifyRunAccounts` | main.c:235-236 | Over any sequence of gives and takes, the sum of drained counts plus what is pending equals the starting value plus the number of gives. Every drained count is positive. No give is lost or counted twice. |
| `FreeRtos.GivesThenTake` | main.c:236 | N gives followed by one take are drained as the single count N (plus any earlier pending value), and nothing is left pending. |
| `FreeRtos.Task.constructor` | main.c:121 | A created task keeps the name it was given and has no pending notification. |
| `FreeRtos.Mutex.constructor` | main.c:84 | The mutex is created available. |
| `FreeRtos.Mutex.Take` | main.c:165 | Succeeds iff nobody holds the mutex, and then the caller holds it. Otherwise nothing changes. |
| `FreeRtos.Mutex.Give` | main.c:196 | The holder releases the mutex and it becomes available. |
| `PortJIsr.Isr.constructor` | isr.c:22-24 | The statics start as null handles and value 0. |
| `PortJIsr.Isr.Configure` | isr.c:33-37 | Stores the queue handle, task handle and value verbatim. The clear register is unchanged. |
| `PortJIsr.Isr.GpioPortJIsr` | isr.c:42-67 | The clear register gets exactly the mask read. If pin 1's bit is clear, the queue and the notification value are unchanged. If it is set, the configured value is appended unless the queue is full, and the notification value grows by exactly 1 even when the push was dropped. A context switch is requested iff pin 1 fired and either the notification woke a task or the send was accepted and woke a receiver. A send refused by a full queue never requests a switch. |
| `PulseGenerator.StrCmp` | main.c:171 | `StrCmp` is the sign of `strcmp` on NUL-free strings (-1, 0 or 1), and it is 0 exactly when the strings are equal. main.c:171 only tests it against 0. |
| `PulseGenerator.StrCmpAntisymmetric` | main.c:171 | Swapping the two strings flips the sign of `strcmp`. |
| `PulseGenerator.StrCmpSelectsQueueConsumer` | main.c:171 | `0 == strcmp("adcTaskLow", TaskName)` holds exactly for the task named "adcTaskLow" (`IsQueueConsumer`), and fails for "adcTaskHigh". |
| `PulseGenerator.ChooseHalfFlashDuration` | main.c:167-182 | A queue consumer that finds the queue non-empty runs at the head value and removes exactly the head. In every other case, including an empty queue and the high task, the cycle runs at the default and the queue is unchanged. A non-default half-period implies a consumer and a non-empty queue. |
| `PulseGenerator.HighTaskLeavesQueueAlone` | main.c:170-171 | Only the task named "adcTaskLow" reads the queue. The high task always runs at 500 and leaves the queue as it was. |
| `PulseGenerator.OverrideDoesNotPersist` | main.c:167-168 | A popped value drives one cycle only. For any queue, two consumer cycles in a row take the first and then the second queued value. A cycle that finds the queue empty runs at the default. |
| `PulseGenerator.FlashSeries` | main.c:185-193 | A burst of n pulses is 4n outputs long. |
| `PulseGenerator.FlashSeriesAt` | main.c:185-193 | Output k of a burst is a high write, a delay of the half-period, a low write, then another delay, in turn. All writes are on the task's own port and pin, so there are exactly n high-then-low pairs. |
| `Board.PortLevelUntouched` | main.c:186-191 | A `GPIOPinWrite` changes only the bits in its pin mask. Writes that touch no bit of a mask leave those bits of the port's data register as they were. |
| `PulseGenerator.FlashSeriesLevels` | main.c:185-193 | After a non-empty burst the task's pin bit is low. An empty burst leaves the port as it was. Every other bit of the task's port, and every bit of every other port, is unchanged. |
| `PulseGenerator.Application.constructor` | main.c:73-125 | main() creates an empty 20-slot queue, a free mutex, both flash tasks idle, a counter of 0 and no pending notification. It configures the ISR with the queue, the event task and 60. |
| `PulseGenerator.Application.MutualExclusion` | main.c:161-196 | Under the system invariant, at most one flash task is between taking and giving the mutex. |
| `PulseGenerator.Application.FlashCycleStart` | main.c:165-182 | Succeeds iff the mutex was free, and then the task holds it. The cycle's half-period and the queue are as `ChooseHalfFlashDuration` gives them from the default, with nothing carried over from an earlier cycle. A blocked task changes nothing. The invariant is preserved. |
| `PulseGenerator.Application.Burst` | main.c:184-193 | Appends exactly `FlashSeries` for the task's port, pin, chosen half-period and flash count. The mutex stays held by the task throughout. |
| `PulseGenerator.Application.FlashCycleEnd` | main.c:195-196 | Gives the mutex back and the task becomes idle. The invariant is preserved. |
| `PulseGenerator.Application.ButtonServiceStep` | main.c:217-223 | When the pin reads 0, one copy of 110 is offered to the queue, which drops it when full. When the pin reads non-zero, the queue is unchanged. |
| `PulseGenerator.Application.PortJInterrupt` | isr.c:42-67 | The interrupt acts on the application's own queue and event task. When pin 1 fired, 60 is offered to the queue and the event task's notification value grows by 1; otherwise neither changes. No task ever waits on the queue, so a context switch is requested iff pin 1 fired and the notification woke the event task. That wake can only be reported while the event task had no notification pending, because only then is it blocked. The system invariant is kept. |
| `PulseGenerator.Application.DataProcessingStep` | main.c:234-258 | The task drains the whole notification value N and resets it to 0. `activationCounterJ1_` grows by exactly N, modulo 2^32. The loop keeps counter plus remaining equal to the old counter plus N. While N is 0 the task stays blocked. |
| `Ultrasonic.PulseWidth` | NEW/ultrasonic.c:48-49 | When the timer moved down, the width is strictly positive and at most the start reading. When both readings are at most 0xFFFF: the wrap branch equals `0xFFFF - endTime + startTime` without unsigned wrap, the width never exceeds 0xFFFF, and equal readings give 0xFFFF, not 0. |
| `Ultrasonic.PulseWidthVersusModularDistance` | NEW/ultrasonic.c:49 | For 16-bit readings, the width equals the 16-bit modular distance when no wrap happened. It is one tick short of that distance when a wrap happened, and 0xFFFF rather than 0 for equal readings. |
| `Ultrasonic.PulseWidthWrapsOnWideReadings` | NEW/ultrasonic.c:48-49 | In the wrap branch (end reading not below the start), the width wraps around 2^32 exactly when the end exceeds the start by more than 0xFFFF. The result is then `2^32 + 0xFFFF - endTime + startTime`. Otherwise it is `0xFFFF - endTime + startTime`. |
| `Ultrasonic.ReplayKeepsLastEdges` | NEW/ultrasonic.c:36-51 | After any run of echo interrupts, the start time is that of the last rising edge. The distance `Ultrasonic_GetDistance` returns is the conversion of the width measured at the last falling edge. |
| `Ultrasonic.NoFallingEdgeKeepsDistance` | NEW/ultrasonic.c:13 | Until a falling edge is processed, the distance keeps its initial value, 0 for the driver. |
| `Ultrasonic.EchoSensor.constructor` | NEW/ultrasonic.c:13-14 | Both statics start at 0, before any echo interrupt. |
| `Ultrasonic.EchoSensor.EchoIsr` | NEW/ultrasonic.c:40-52 | A rising edge latches the timer value and keeps the distance. A falling edge keeps the start time and overwrites the distance with the converted width. The statics always equal the replay of every echo interrupt since start-up. |
| `Ultrasonic.EchoSensor.GetDistance` | NEW/ultrasonic.c:36-38 | Returns the distance measured at the last falling edge since start-up, or 0 before the first one. |
| `LedPendulum.LedIndex` | NEW/led_pendulum.c:15 | The index is in 0..7. Within 0..300 it is the 40 cm band the distance falls in (`distance / 40`). Index 7 only occurs for 280..300. |
| `LedPendulum.OutOfRangeShowsAsNear` | NEW/led_pendulum.c:15 | A distance above 300 lights LED 0, the same as 0..39. |
| `LedPendulum.LedIndexMonotone` | NEW/led_pendulum.c:14-15 | On 0..300 the index never decreases as the distance grows. |
| `LedPendulum.TopLedRange` | NEW/led_pendulum.c:15 | The index is 7 exactly for distances 280..300. |
| `LedPendulum.LedPattern` | NEW/led_pendulum.c:16 | `1 << ledIndex` as the 8-bit port value has exactly one bit set, and that bit is number `LedIndex(distance)`. |
| `LedPendulum.DisplayDistance` | NEW/led_pendulum.c:13-17 | The one write goes to all eight pins of port L and lights LED `LedIndex(distance)` alone. |

## Left out

- Scheduling and timing are not modelled. This covers task priorities, preemption, the order in which blocked tasks get the mutex, and priority inheritance. It also covers `vTaskDelayUntil` with the task execution period, the 100 ms poll delay and the tick-count measurements in `dataProcessingTask_`. Each step is atomic and the caller chooses the interleaving. Inside a burst, `vTaskDelay` shows up only as a `Delay` entry in the output trace.
- Whether an accepted `xQueueSendFromISR` wakes a receiver, and whether `vTaskNotifyGiveFromISR` wakes a task above the interrupted one, depend on the scheduler's state. They are inputs to the interrupt method. A refused send never sets its flag. In the application no task ever waits on the queue, so there the queue flag is always false.
- FreeRTOS internals are not modelled. The queue, notification and mutex objects follow the documented behaviour of the calls the application makes, all with block time 0 or `portMAX_DELAY`.
- Resource-creation failure is not modelled. In the model the queue, the mutex and the tasks always exist. The halt loop `defaultApplicationErrorHandler_` and the queue null test in the low task's condition are therefore not modelled either.
- Hardware setup is register configuration and peripheral-ready waits. This covers `hardwareSetup_`, `Ultrasonic_Init` and `Pendulum_Init`, and the `GPIOIntClear` call of `EchoISR`.
- `Ultrasonic_Trigger`, the timer interrupt and the polling loop of `NEW/main.c` are not part of this model. They are a GPIO pulse with a cycle-count delay and an endless read-and-display loop.
- The floating-point conversion `(pulseWidth * 0.0343) / 2` is a function given to the sensor object when it is created. The model does not compute it.
- The disabled `cos` workload and the `uxQueueMessagesWaiting` debug read have no effect and are not modelled.
- `isr.h` holds only declarations.
- FreeRtos.Task.NotifyGiveFromIsr: does not model the 32-bit wrap of the notification value, because the application never accumulates 2^32 pending events.
- FreeRtos.Task.constructor: keeps the whole task name, while `xTaskCreate` stores at most `configMAX_TASK_NAME_LEN - 1` characters. FreeRTOSConfig.h is not part of this model. The name test of main.c:171 picks out the low task only if "adcTaskLow" and "adcTaskHigh" survive whole, which needs `configMAX_TASK_NAME_LEN` of at least 12; the model assumes that. "dataProcessingTask" (18 characters) would be truncated under the default of 16, which changes nothing here because its name is never compared.
- FreeRtos.Queue.Send: queue items are unbounded naturals rather than 32-bit `unsigned int`. The only values ever queued are 110 and 60.
- Port base addresses are named ports rather than addresses. Port M (the ultrasonic trigger and echo pins) is not named, because its only writes are in `Ultrasonic_Trigger`.
- `strcmp` is modelled on strings without embedded NUL characters, which task names never contain.
- The `taskExecutionPeriod_` parameter is recorded but unused, since periods are timing.
