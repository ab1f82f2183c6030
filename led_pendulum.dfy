/** The LED pendulum display (NEW/led_pendulum.c): a distance selects one of
    the eight LEDs on port L, which is lit alone. */
module LedPendulum {
  import opened Board

  /** The largest distance the display scales; anything beyond shows as LED 0. */
  const MaxDistance: nat := 300
  /** Centimetres per LED. */
  const Step: nat := 40

  /** ledIndex of Pendulum_DisplayDistance. */
  function LedIndex(distance: Uint32): (i: nat)
    ensures i <= 7
    ensures i == 7 ==> 280 <= distance <= MaxDistance
    ensures distance <= MaxDistance ==> Step * i <= distance < Step * (i + 1)
  {
    if distance <= MaxDistance then distance / Step else 0
  }

  /** Out-of-range distances light the same LED as 0..39. */
  lemma OutOfRangeShowsAsNear(distance: Uint32, near: Uint32)
    requires distance > MaxDistance && near < Step
    ensures LedIndex(distance) == LedIndex(near) == 0
  {
  }

  /** Within range a farther object never lights a lower LED. */
  lemma LedIndexMonotone(a: Uint32, b: Uint32)
    requires a <= b <= MaxDistance
    ensures LedIndex(a) <= LedIndex(b)
  {
  }

  /** The top LED lights exactly for 280..300. */
  lemma TopLedRange(distance: Uint32)
    ensures LedIndex(distance) == 7 <==> 280 <= distance <= MaxDistance
  {
  }

  /** Whether bit `j` of an 8-bit port value is set, i.e. LED `j` is lit. */
  predicate BitSet(p: bv8, j: nat)
  {
    j < 8 && (p >> j) & 1 == 1
  }

  /** The value written, 1 << ledIndex, as the 8-bit port value: exactly one bit
      set, and it is bit LedIndex(distance). */
  function LedPattern(distance: Uint32): (p: bv8)
    ensures p in {0x01, 0x02, 0x04, 0x08, 0x10, 0x20, 0x40, 0x80}
    ensures forall j: nat :: BitSet(p, j) <==> j == LedIndex(distance)
  {
    (1 as bv8) << LedIndex(distance)
  }

  /** Pendulum_DisplayDistance: the single GPIO write it makes, to every pin of
      port L, lighting LED number LedIndex(distance) only. */
  function DisplayDistance(distance: Uint32): (w: Output)
    ensures w.Write? && w.port == PortL && w.pins == AllPins
    ensures w.value == (1 as bv8) << LedIndex(distance)
  {
    Write(PortL, AllPins, LedPattern(distance))
  }
}
