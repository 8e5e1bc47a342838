/** Stored counts, which never go below zero. */
module Counters {

  function Clamp(n: int): int {
    if n < 0 then 0 else n
  }
}
