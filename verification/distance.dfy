/** The conversion of an echo width in timer ticks to centimetres and the plausibility
    filter of the measurement loop (main.c:107-111). */
module Distance {
  import opened Uint16

  /** Timer ticks per centimetre of distance: the round trip of sound at one tick per
      microsecond. */
  const TICKS_PER_CM: int := 58
  /** Readings below this many centimetres are discarded (`DIST_MIN`). */
  const DIST_MIN: int := 2
  /** Readings above this many centimetres are discarded (`DIST_MAX`). */
  const DIST_MAX: int := 400

  /** `pulse_width / 58` on unsigned ints: the number of whole centimetres, rounded down. */
  function Centimetres(width: U16): (cm: U16)
    ensures cm * TICKS_PER_CM <= width < (cm + 1) * TICKS_PER_CM
  {
    width / TICKS_PER_CM
  }

  /** Out-of-range readings are replaced by the sentinel 0; in-range ones pass through. */
  function Filter(cm: U16): (d: U16)
    ensures d == 0 || DIST_MIN <= d <= DIST_MAX
    ensures d != 0 ==> d == cm
    ensures DIST_MIN <= cm <= DIST_MAX ==> d == cm
  {
    if cm < DIST_MIN || cm > DIST_MAX then 0 else cm
  }

  /** `distance_cm` after conversion and filtering. */
  function DistanceCm(width: U16): (d: U16)
    ensures d == 0 || DIST_MIN <= d <= DIST_MAX
    ensures d != 0 ==> d * TICKS_PER_CM <= width < (d + 1) * TICKS_PER_CM
  {
    Filter(Centimetres(width))
  }

  /** A reading survives the filter exactly when the width lies in [116, 23257]:
      116 ticks are 2 cm and 23257 is the last width that still rounds down to 400 cm. */
  lemma ValidWidthWindow(width: U16)
    ensures DistanceCm(width) != 0 <==> DIST_MIN * TICKS_PER_CM <= width <= (DIST_MAX + 1) * TICKS_PER_CM - 1
  {
    var cm := Centimetres(width);
    assert cm < DIST_MIN ==> width < DIST_MIN * TICKS_PER_CM;
    assert cm > DIST_MAX ==> width >= (DIST_MAX + 1) * TICKS_PER_CM;
  }

  /** The "no reading" width 0 is always reported as the sentinel 0. */
  lemma NoReadingIsSentinel()
    ensures DistanceCm(0) == 0
  {
  }
}
