/** The three FreeRTOS kernel objects the application uses, by their documented
    semantics: a fixed-capacity FIFO queue used with block time 0 (xQueueSend,
    xQueueSendFromISR, xQueueReceive), a task handle carrying a notification value
    (vTaskNotifyGiveFromISR, ulTaskNotifyTake with clear-on-exit), and a mutex
    (xSemaphoreTake, xSemaphoreGive). How the kernel implements them is not modelled. */
module FreeRtos {

  datatype Option<T> = None | Some(value: T)

  /* ---------------------------------------------------------------- queue */

  /** Queue contents after a non-blocking send of `v`: appended at the tail when
      there is room, otherwise the send fails and nothing changes. */
  function Sent(items: seq<nat>, capacity: nat, v: nat): seq<nat>
  {
    if |items| < capacity then items + [v] else items
  }

  /** A non-blocking receive: the head and the rest, or nothing from an empty queue. */
  function Received(items: seq<nat>): (Option<nat>, seq<nat>)
  {
    if items == [] then (None, items) else (Some(items[0]), items[1..])
  }

  class Queue {
    const capacity: nat
    var items: seq<nat>

    ghost predicate Valid()
      reads this
    {
      |items| <= capacity
    }

    /** xQueueCreate(capacity, sizeof(unsigned int)). */
    constructor (capacity: nat)
      ensures Valid() && this.capacity == capacity && items == []
    {
      this.capacity := capacity;
      items := [];
    }

    /** xQueueSend / xQueueSendFromISR with block time 0. */
    method Send(v: nat) returns (ok: bool)
      requires Valid()
      modifies this
      ensures Valid()
      ensures ok <==> |old(items)| < capacity
      ensures items == Sent(old(items), capacity, v)
    {
      ok := |items| < capacity;
      if ok {
        items := items + [v];
      }
    }

    /** xQueueReceive with block time 0. */
    method Receive() returns (r: Option<nat>)
      requires Valid()
      modifies this
      ensures Valid()
      ensures (r, items) == Received(old(items))
    {
      if items == [] {
        r := None;
      } else {
        r := Some(items[0]);
        items := items[1..];
      }
    }
  }

  /** A send never takes a queue past its capacity; a send to a full queue is
      dropped without evicting anything, otherwise `v` becomes the new tail. */
  lemma SentKeepsCapacity(items: seq<nat>, capacity: nat, v: nat)
    requires |items| <= capacity
    ensures |Sent(items, capacity, v)| <= capacity
    ensures |items| == capacity ==> Sent(items, capacity, v) == items
    ensures |items| < capacity ==> Sent(items, capacity, v)[..|items|] == items
    ensures |items| < capacity ==> Sent(items, capacity, v)[|items|] == v
  {
  }

  /** One call on a queue, made by any producer or by the consumer. */
  datatype QueueOp = SendOp(v: nat) | ReceiveOp

  /** What a sequence of calls does: the final contents, the values the consumer
      received, in order, and the values the queue accepted, in order. */
  datatype QueueHistory = QueueHistory(items: seq<nat>, received: seq<nat>, accepted: seq<nat>)

  function Run(items: seq<nat>, capacity: nat, ops: seq<QueueOp>): QueueHistory
    decreases |ops|
  {
    if ops == [] then QueueHistory(items, [], [])
    else
      match ops[0]
      case SendOp(v) =>
        var next := Sent(items, capacity, v);
        var rest := Run(next, capacity, ops[1..]);
        if |items| < capacity then QueueHistory(rest.items, rest.received, [v] + rest.accepted)
        else rest
      case ReceiveOp =>
        var (r, next) := Received(items);
        var rest := Run(next, capacity, ops[1..]);
        if r.Some? then QueueHistory(rest.items, [r.value] + rest.received, rest.accepted)
        else rest
  }

  /** FIFO across any interleaving of producers and the consumer: what was
      received followed by what is still queued is exactly what was queued at the
      start followed by everything the queue accepted, in the order accepted;
      and the capacity is never exceeded. */
  lemma {:induction false} RunIsFifo(items: seq<nat>, capacity: nat, ops: seq<QueueOp>)
    requires |items| <= capacity
    ensures Run(items, capacity, ops).received + Run(items, capacity, ops).items
            == items + Run(items, capacity, ops).accepted
    ensures |Run(items, capacity, ops).items| <= capacity
    decreases |ops|
  {
    if ops != [] {
      match ops[0]
      case SendOp(v) =>
        var next := Sent(items, capacity, v);
        RunIsFifo(next, capacity, ops[1..]);
        var rest := Run(next, capacity, ops[1..]);
        if |items| < capacity {
          calc {
            rest.received + rest.items;
            next + rest.accepted;
            items + ([v] + rest.accepted);
          }
        }
      case ReceiveOp =>
        var (r, next) := Received(items);
        RunIsFifo(next, capacity, ops[1..]);
        var rest := Run(next, capacity, ops[1..]);
        if r.Some? {
          calc {
            ([r.value] + rest.received) + rest.items;
            [r.value] + (rest.received + rest.items);
            [r.value] + (next + rest.accepted);
            ([items[0]] + items[1..]) + rest.accepted;
            { assert [items[0]] + items[1..] == items; }
            items + rest.accepted;
          }
        }
    }
  }

  function Sends(vs: seq<nat>): (ops: seq<QueueOp>)
    ensures |ops| == |vs|
    ensures forall k :: 0 <= k < |vs| ==> ops[k] == SendOp(vs[k])
  {
    if vs == [] then [] else [SendOp(vs[0])] + Sends(vs[1..])
  }

  function Min(a: int, b: int): int
  {
    if a <= b then a else b
  }

  /** A run of sends is its first send followed by the run of the others. */
  lemma RunSendsUnfold(items: seq<nat>, capacity: nat, vs: seq<nat>)
    requires vs != []
    ensures Run(items, capacity, Sends(vs)).items == Run(Sent(items, capacity, vs[0]), capacity, Sends(vs[1..])).items
    ensures Run(items, capacity, Sends(vs)).received == Run(Sent(items, capacity, vs[0]), capacity, Sends(vs[1..])).received
  {
    assert Sends(vs)[0] == SendOp(vs[0]);
    assert Sends(vs)[1..] == Sends(vs[1..]);
  }

  /** Sends with no receive in between keep the first values that fit, in order,
      and drop every later one: the queue ends as its old contents followed by the
      longest prefix of `vs` that fits. */
  lemma {:induction false} SendsKeepPrefix(items: seq<nat>, capacity: nat, vs: seq<nat>)
    requires |items| <= capacity
    ensures Run(items, capacity, Sends(vs)).items == items + vs[..Min(|vs|, capacity - |items|)]
    ensures Run(items, capacity, Sends(vs)).received == []
    decreases |vs|
  {
    if vs == [] {
      assert vs[..0] == [];
    } else {
      RunSendsUnfold(items, capacity, vs);
      if |items| < capacity {
        var next := items + [vs[0]];
        SendsKeepPrefix(next, capacity, vs[1..]);
        var n := Min(|vs| - 1, capacity - |next|);
        assert Min(|vs|, capacity - |items|) == n + 1;
        assert next + vs[1..][..n] == items + vs[..n + 1];
      } else {
        SendsToFullQueue(items, capacity, vs[1..]);
        assert vs[..0] == [];
      }
    }
  }

  /** Every send to a full queue is dropped. */
  lemma {:induction false} SendsToFullQueue(items: seq<nat>, capacity: nat, vs: seq<nat>)
    requires |items| == capacity
    ensures Run(items, capacity, Sends(vs)) == QueueHistory(items, [], [])
    decreases |vs|
  {
    if vs != [] {
      assert Sends(vs)[1..] == Sends(vs[1..]);
      SendsToFullQueue(items, capacity, vs[1..]);
    }
  }

  /* ------------------------------------------------------- task notification */

  /** A task handle (TaskHandle_t) with the task's name and its notification value. */
  class Task {
    const name: string
    var notifyValue: nat

    /** xTaskCreate: a new task starts with no pending notification. */
    constructor (name: string)
      ensures this.name == name && notifyValue == 0
    {
      this.name := name;
      notifyValue := 0;
    }

    /** vTaskNotifyGiveFromISR: add one to the notification value. */
    method NotifyGiveFromIsr()
      modifies this
      ensures notifyValue == old(notifyValue) + 1
    {
      notifyValue := notifyValue + 1;
    }

    /** ulTaskNotifyTake(pdTRUE, portMAX_DELAY) once the value is non-zero (it
        never returns while the value is 0): return the whole accumulated value
        and clear it. */
    method NotifyTake() returns (count: nat)
      requires notifyValue > 0
      modifies this
      ensures count == old(notifyValue) && notifyValue == 0
      ensures count > 0
    {
      count := notifyValue;
      notifyValue := 0;
    }
  }

  /** One operation on a notification value: a give from interrupt context, or a
      take by the task (which waits while the value is zero). */
  datatype NotifyOp = Give | Take

  /** The final notification value and the counts the task drained, in order.
      A take on a zero value is a task still waiting: nothing happens. */
  function NotifyRun(value: nat, ops: seq<NotifyOp>): (nat, seq<nat>)
    decreases |ops|
  {
    if ops == [] then (value, [])
    else if ops[0] == Give then NotifyRun(value + 1, ops[1..])
    else if value == 0 then NotifyRun(value, ops[1..])
    else
      var rest := NotifyRun(0, ops[1..]);
      (rest.0, [value] + rest.1)
  }

  function Sum(s: seq<nat>): nat
  {
    if s == [] then 0 else s[0] + Sum(s[1..])
  }

  function Gives(ops: seq<NotifyOp>): nat
  {
    if ops == [] then 0 else (if ops[0] == Give then 1 else 0) + Gives(ops[1..])
  }

  /** Notification accounting: every give is drained exactly once or is still
      pending, so the drained counts plus what is left equal the starting value
      plus the number of gives, and every drained count is positive. */
  lemma {:induction false} NotifyRunAccounts(value: nat, ops: seq<NotifyOp>)
    ensures Sum(NotifyRun(value, ops).1) + NotifyRun(value, ops).0 == value + Gives(ops)
    ensures forall k :: 0 <= k < |NotifyRun(value, ops).1| ==> NotifyRun(value, ops).1[k] > 0
    decreases |ops|
  {
    if ops != [] {
      if ops[0] == Give {
        NotifyRunAccounts(value + 1, ops[1..]);
      } else if value == 0 {
        NotifyRunAccounts(value, ops[1..]);
      } else {
        NotifyRunAccounts(0, ops[1..]);
      }
    }
  }

  function GiveN(n: nat): (ops: seq<NotifyOp>)
    ensures |ops| == n && forall k :: 0 <= k < n ==> ops[k] == Give
  {
    if n == 0 then [] else [Give] + GiveN(n - 1)
  }

  /** N gives before a take are drained by that one take, as the single count
      `value + N`, and leave nothing pending. */
  lemma {:induction false} GivesThenTake(value: nat, n: nat)
    requires value + n > 0
    ensures NotifyRun(value, GiveN(n) + [Take]) == (0, [value + n])
    decreases n
  {
    if n == 0 {
      assert GiveN(0) + [Take] == [Take];
      assert [Take][1..] == [] && [Take][0] == Take;
      assert NotifyRun(0, []) == (0, []);
      assert [value] + NotifyRun(0, []).1 == [value];
    } else {
      assert (GiveN(n) + [Take])[1..] == GiveN(n - 1) + [Take];
      GivesThenTake(value + 1, n - 1);
    }
  }

  /* -------------------------------------------------------------- mutex */

  /** A (non-recursive) FreeRTOS mutex; `holder` is the task that took it. */
  class Mutex {
    var holder: Task?

    /** xSemaphoreCreateMutex: created available. */
    constructor ()
      ensures holder == null
    {
      holder := null;
    }

    /** xSemaphoreTake(mutex, portMAX_DELAY) as one atomic step: it succeeds
        exactly when nobody holds the mutex; otherwise the caller stays blocked
        and nothing changes. */
    method Take(t: Task) returns (acquired: bool)
      modifies this
      ensures acquired <==> old(holder) == null
      ensures holder == if acquired then t else old(holder)
    {
      acquired := holder == null;
      if acquired {
        holder := t;
      }
    }

    /** xSemaphoreGive by the holder: the mutex becomes available. */
    method Give(t: Task)
      requires holder == t
      modifies this
      ensures holder == null
    {
      holder := null;
    }
  }
}
