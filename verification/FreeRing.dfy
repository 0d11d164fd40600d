/** The free blocks of the FASTer FTL: a ring that gives the blocks out in the order in which they came back. */
module FreeRing {
  import opened Rings

  class Ring {
    const max: nat                 // FREE_BLK_PER_BANK
    const slots: array<nat>        // FREE_BMT
    var tail: nat                  // free_list_tail: the next block to give out
    var head: nat                  // free_list_head: where the next block that comes back goes
    var count: nat                 // free_blk_cnt
    ghost var free: seq<nat>

    ghost predicate Valid()
      reads this, slots
    {
      && slots.Length == max > 0 && tail < max && head == Slot(tail, count, max) && count == |free| <= max
      && forall i | 0 <= i < count :: slots[Slot(tail, i, max)] == free[i]
    }

    /** After format the ring is full. */
    constructor (blocks: seq<nat>)
      requires blocks != []
      ensures Valid() && free == blocks && max == |blocks| && fresh(slots)
    {
      max := |blocks|;
      slots := new nat[|blocks|](i requires 0 <= i < |blocks| => blocks[i]);
      tail, head, count, free := 0, 0, |blocks|, blocks;
    }

    /** get_free_vbn. */
    method GetFreeVbn() returns (v: nat)
      requires Valid() && free != []
      modifies this
      ensures Valid() && v == old(free)[0] && free == old(free)[1..]
    {
      v := slots[tail];
      assert v == slots[Slot(tail, 0, max)];
      NextSlot(tail, max);
      ghost var was := tail;
      tail := (tail + 1) % max;
      count := count - 1;
      free := free[1..];
      forall i | 0 <= i < count ensures slots[Slot(tail, i, max)] == free[i] {
        assert Slot(tail, i, max) == Slot(was, i + 1, max);
      }
    }

    /** ret_free_vbn. */
    method RetFreeVbn(v: nat)
      requires Valid() && |free| < max
      modifies this, slots
      ensures Valid() && free == old(free) + [v]
    {
      slots[head] := v;
      NextSlot(head, max);
      head := (head + 1) % max;
      count := count + 1;
      free := free + [v];
    }
  }
}
