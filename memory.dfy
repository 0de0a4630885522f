// Growth policy shared by every growable buffer (src/memory.h).
module Memory {

  /** GROW_CAPACITY: the capacity a full buffer of capacity `c` is regrown
      to. Every growth makes room for at least one more element, never
      yields fewer than eight slots, and doubles once past eight. */
  function GrowCapacity(c: nat): (r: nat)
    ensures r > c
    ensures r >= 8
    ensures c < 8 ==> r == 8
    ensures c >= 8 ==> r == 2 * c
  {
    if c < 8 then 8 else c * 2
  }
}
