/** The echo half of the ultrasonic driver (NEW/ultrasonic.c): the echo-pin
    interrupt latches the timer on a rising edge and, on a falling edge, turns the
    pulse width into a distance kept in a module static. */
module Ultrasonic {
  import opened Board

  /** The count the wrap branch adds back: 0xFFFF, as the driver writes it. */
  const WrapCount: nat := 0xFFFF

  /** The pulse width between a start and an end reading of the down-counting
      timer, in uint32_t arithmetic: the plain difference when the timer moved
      down, otherwise 0xFFFF - endTime + startTime, which wraps modulo 2^32. */
  function PulseWidth(startTime: Uint32, endTime: Uint32): (w: Uint32)
    ensures startTime > endTime ==> 0 < w <= startTime
    ensures startTime <= endTime <= WrapCount ==> w == WrapCount - endTime + startTime
    ensures startTime <= WrapCount && endTime <= WrapCount ==> w <= WrapCount
    ensures startTime == endTime <= WrapCount ==> w == WrapCount
  {
    if startTime > endTime then startTime - endTime
    else (WrapCount - endTime + startTime) % Word
  }

  /** With 16-bit readings the driver's width agrees with the modular distance of
      a 16-bit down-counter when no wrap happened, is one tick short of it when
      one did, and reads 0xFFFF rather than 0 for equal readings. */
  lemma PulseWidthVersusModularDistance(startTime: Uint32, endTime: Uint32)
    requires startTime <= WrapCount && endTime <= WrapCount
    ensures startTime > endTime ==> PulseWidth(startTime, endTime) == (startTime - endTime) % 0x10000
    ensures startTime < endTime ==> PulseWidth(startTime, endTime) == (startTime - endTime) % 0x10000 - 1
    ensures startTime == endTime ==> PulseWidth(startTime, endTime) == (startTime - endTime) % 0x10000 + WrapCount
  {
  }

  /** When the end reading is not below the start (the wrap branch), the width
      wraps around 2^32 exactly when the end exceeds the start by more than
      0xFFFF, which 32-bit timer readings allow; otherwise it is the plain
      0xFFFF - endTime + startTime. */
  lemma PulseWidthWrapsOnWideReadings(startTime: Uint32, endTime: Uint32)
    requires startTime <= endTime
    ensures endTime - startTime > WrapCount ==> PulseWidth(startTime, endTime) == Word + WrapCount - endTime + startTime
    ensures endTime - startTime <= WrapCount ==> PulseWidth(startTime, endTime) == WrapCount - endTime + startTime
  {
  }

  /** The two statics, distance and startTime. */
  datatype EchoState = EchoState(startTime: Uint32, distance: Uint32)

  /** One echo interrupt, given the echo pin's reading (non-zero on a rising
      edge), the timer reading, and the float conversion of a width to
      centimetres, which is taken as given. */
  function OnEcho(s: EchoState, echoLevel: bv8, timerValue: Uint32, toCentimetres: Uint32 -> Uint32): EchoState
  {
    if !IsFalling(Edge(echoLevel, timerValue)) then EchoState(timerValue, s.distance)
    else EchoState(s.startTime, toCentimetres(PulseWidth(s.startTime, timerValue)))
  }

  /** An echo interrupt as the driver sees it. */
  datatype Edge = Edge(echoLevel: bv8, timerValue: Uint32)

  function Replay(s: EchoState, edges: seq<Edge>, toCentimetres: Uint32 -> Uint32): EchoState
    decreases |edges|
  {
    if edges == [] then s
    else Replay(OnEcho(s, edges[0].echoLevel, edges[0].timerValue, toCentimetres), edges[1..], toCentimetres)
  }

  /** The start time in force after `edges`: the timer reading of the last rising
      edge, or `start` when there is none. */
  function LatchedStart(start: Uint32, edges: seq<Edge>): Uint32
    decreases |edges|
  {
    if edges == [] then start
    else if edges[|edges| - 1].echoLevel != 0 then edges[|edges| - 1].timerValue
    else LatchedStart(start, edges[..|edges| - 1])
  }

  /** A falling edge: the echo pin reads 0 when the interrupt runs. */
  predicate IsFalling(e: Edge)
  {
    e.echoLevel == 0
  }

  /** The distance in force after `edges`: the conversion of the width measured
      at the last falling edge, from the start time latched before that edge, or
      the starting distance when no falling edge has come. */
  function MeasuredDistance(s: EchoState, edges: seq<Edge>, toCentimetres: Uint32 -> Uint32): Uint32
    decreases |edges|
  {
    if edges == [] then s.distance
    else
      var init := edges[..|edges| - 1];
      var last := edges[|edges| - 1];
      if IsFalling(last) then toCentimetres(PulseWidth(LatchedStart(s.startTime, init), last.timerValue))
      else MeasuredDistance(s, init, toCentimetres)
  }

  /** Replaying echo interrupts from the first leaves exactly the start time of
      the last rising edge and the distance of the last falling edge: what
      Ultrasonic_GetDistance returns is always the last value stored. */
  lemma {:induction false} ReplayKeepsLastEdges(s: EchoState, edges: seq<Edge>, toCentimetres: Uint32 -> Uint32)
    ensures Replay(s, edges, toCentimetres)
            == EchoState(LatchedStart(s.startTime, edges), MeasuredDistance(s, edges, toCentimetres))
    decreases |edges|
  {
    if edges != [] {
      var init := edges[..|edges| - 1];
      var last := edges[|edges| - 1];
      assert init + [last] == edges;
      ReplayKeepsLastEdges(s, init, toCentimetres);
      ReplaySnoc(s, init, last, toCentimetres);
    }
  }

  /** Before any falling edge the distance keeps its starting value (0 for the
      driver's statics), however many rising edges came. */
  lemma {:induction false} NoFallingEdgeKeepsDistance(s: EchoState, edges: seq<Edge>, toCentimetres: Uint32 -> Uint32)
    requires forall k :: 0 <= k < |edges| ==> !IsFalling(edges[k])
    ensures MeasuredDistance(s, edges, toCentimetres) == s.distance
    decreases |edges|
  {
    if edges != [] {
      NoFallingEdgeKeepsDistance(s, edges[..|edges| - 1], toCentimetres);
    }
  }

  /** Replaying one more edge applies OnEcho to the state reached so far. */
  lemma {:induction false} ReplaySnoc(s: EchoState, edges: seq<Edge>, e: Edge, toCentimetres: Uint32 -> Uint32)
    ensures Replay(s, edges + [e], toCentimetres)
            == OnEcho(Replay(s, edges, toCentimetres), e.echoLevel, e.timerValue, toCentimetres)
    decreases |edges|
  {
    if edges == [] {
      assert [e][1..] == [];
    } else {
      assert (edges + [e])[1..] == edges[1..] + [e];
      ReplaySnoc(OnEcho(s, edges[0].echoLevel, edges[0].timerValue, toCentimetres), edges[1..], e, toCentimetres);
    }
  }

  /** The driver's module statics, with the echo interrupts seen so far. */
  class EchoSensor {
    var startTime: Uint32
    var distance: Uint32
    /** Every echo interrupt since start-up, oldest first. */
    ghost var edges: seq<Edge>
    /** The floating-point conversion (pulseWidth * 0.0343) / 2 to uint32_t. */
    const toCentimetres: Uint32 -> Uint32

    /** The statics are what replaying every echo interrupt from the zeroed
        start-up state gives. */
    ghost predicate Valid()
      reads this
    {
      State() == Replay(EchoState(0, 0), edges, toCentimetres)
    }

    /** Both statics start at 0, before any interrupt. */
    constructor (toCentimetres: Uint32 -> Uint32)
      ensures startTime == 0 && distance == 0 && edges == []
      ensures this.toCentimetres == toCentimetres
      ensures Valid()
    {
      startTime, distance := 0, 0;
      edges := [];
      this.toCentimetres := toCentimetres;
    }

    function State(): EchoState
      reads this
    {
      EchoState(startTime, distance)
    }

    /** EchoISR: `echoLevel` is what GPIOPinRead returns for the echo pin,
        `timerValue` what TimerValueGet returns. A rising edge latches the timer
        and leaves the distance; a falling edge leaves the start time and
        overwrites the distance. */
    method EchoIsr(echoLevel: bv8, timerValue: Uint32)
      requires Valid()
      modifies this
      ensures Valid() && edges == old(edges) + [Edge(echoLevel, timerValue)]
      ensures State() == OnEcho(old(State()), echoLevel, timerValue, toCentimetres)
      ensures echoLevel != 0 ==> startTime == timerValue && distance == old(distance)
      ensures echoLevel == 0 ==> startTime == old(startTime)
    {
      ReplaySnoc(EchoState(0, 0), edges, Edge(echoLevel, timerValue), toCentimetres);
      if echoLevel != 0 {
        startTime := timerValue;
      } else {
        var endTime := timerValue;
        var pulseWidth := PulseWidth(startTime, endTime);
        distance := toCentimetres(pulseWidth);
      }
      edges := edges + [Edge(echoLevel, timerValue)];
    }

    /** Ultrasonic_GetDistance: the distance measured at the last falling edge,
        or 0 before the first one (NoFallingEdgeKeepsDistance). */
    function GetDistance(): (d: Uint32)
      requires Valid()
      reads this
      ensures d == MeasuredDistance(EchoState(0, 0), edges, toCentimetres)
    {
      ReplayKeepsLastEdges(EchoState(0, 0), edges, toCentimetres);
      distance
    }
  }
}
