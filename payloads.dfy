/**
 * The body of each contribution request (`generatePayload`): the current
 * time, a pseudo-random connection quality and a fixed repetition count.
 */
module Payloads {

  datatype Payload = Payload(fromDate: int, qualityConnection: int, times: int)

  const QUALITY_MIN: int := 65
  const QUALITY_MAX: int := 93
  const TIMES: int := 10

  /** How many quality values the draw can give: `93 - 65 + 1`. */
  const QUALITY_SPAN: nat := QUALITY_MAX - QUALITY_MIN + 1

  /** `generatePayload()`, with `Date.now()` given as `now` and
    * `Math.floor(Math.random() * 29)` given as the integer `draw`. */
  function GeneratePayload(now: int, draw: int): (p: Payload)
    requires 0 <= draw < QUALITY_SPAN
    ensures p.fromDate == now && p.times == TIMES
    ensures QUALITY_MIN <= p.qualityConnection <= QUALITY_MAX
    ensures p.qualityConnection - QUALITY_MIN == draw
  {
    Payload(now, draw + QUALITY_MIN, TIMES)
  }

  /** Every quality in [65, 93] is produced by exactly one draw, so both
    * bounds are reachable. */
  lemma EveryQualityReachable(now: int, quality: int)
    requires QUALITY_MIN <= quality <= QUALITY_MAX
    ensures 0 <= quality - QUALITY_MIN < QUALITY_SPAN
    ensures GeneratePayload(now, quality - QUALITY_MIN).qualityConnection == quality
    ensures forall d :: 0 <= d < QUALITY_SPAN && GeneratePayload(now, d).qualityConnection == quality ==> d == quality - QUALITY_MIN
  {
  }

  lemma BoundsReached(now: int)
    ensures GeneratePayload(now, 0).qualityConnection == 65
    ensures GeneratePayload(now, QUALITY_SPAN - 1).qualityConnection == 93
  {
  }
}
