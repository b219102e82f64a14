/** Option and the bounded clock used by every other module. */
module Wrappers {

  datatype Option<+T> = None | Some(value: T)
}

/** Instants and durations: 64-bit tick counts. */
module Time {

  const MAX_TICKS: nat := 0xffff_ffff_ffff_ffff

  type Instant = t: nat | t <= MAX_TICKS
  type Duration = t: nat | t <= MAX_TICKS

  function SaturatingAdd(t: Instant, d: Duration): (r: Instant)
    ensures t <= r
    ensures r == t + d || (r == MAX_TICKS && t + d > MAX_TICKS)
  {
    if t + d <= MAX_TICKS then t + d else MAX_TICKS
  }
}
