/** Positions in ring buffers. */
module Rings {

  /** The position i places after head. */
  function Slot(head: nat, i: nat, max: nat): nat
  {
    if head + i < max then head + i else if head + i < 2 * max then head + i - max else 0
  }

  lemma NextSlot(i: nat, max: nat)
    requires i < max
    ensures (i + 1) % max == Slot(i, 1, max)
  {
    if i + 1 < max {
      assert (i + 1) % max == i + 1;
    } else {
      assert (i + 1) % max == 0;
    }
  }
}
