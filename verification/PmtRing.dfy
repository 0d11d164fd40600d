/** The request queue of the PMT thread: a ring buffer that keeps the order of arrival. */
module PmtRing {
  import opened PmtEntries
  import opened Rings

  class RequestRing {
    const max: nat                 // MAX_PMT_REQ_QUEUE_SIZE
    const slots: array<nat>        // pmt_req_queue
    var head: nat
    var tail: nat
    var size: nat
    ghost var queue: seq<nat>

    ghost predicate Valid()
      reads this, slots
    {
      && slots.Length == max > 0 && head < max && tail == Slot(head, size, max) && size == |queue| <= max
      && forall i | 0 <= i < size :: slots[Slot(head, i, max)] == queue[i]
    }

    constructor (max: nat)
      requires max > 0
      ensures Valid() && queue == [] && this.max == max && fresh(slots)
    {
      this.max := max;
      slots := new nat[max];
      head, tail, size, queue := 0, 0, 0, [];
    }

    /** pop_pmt_req: the oldest request, or NULL_PMT if there is none. */
    method Pop() returns (k: nat)
      requires Valid()
      modifies this
      ensures Valid()
      ensures if old(queue) == [] then k == NULL_PMT && queue == [] else k == old(queue)[0] && queue == old(queue)[1..]
    {
      if size == 0 {
        return NULL_PMT;
      }
      k := slots[head];
      assert slots[Slot(head, 0, max)] == queue[0];
      NextSlot(head, max);
      ghost var was := head;
      head := (head + 1) % max;
      size := size - 1;
      queue := queue[1..];
      forall i | 0 <= i < size ensures slots[Slot(head, i, max)] == queue[i] {
        assert Slot(head, i, max) == Slot(was, i + 1, max);
      }
    }

    /** The queue part of pmt_thread_request_enqueue. */
    method Enqueue(k: nat)
      requires Valid() && size < max
      modifies this, slots
      ensures Valid() && queue == old(queue) + [k]
    {
      slots[tail] := k;
      NextSlot(tail, max);
      tail := (tail + 1) % max;
      size := size + 1;
      queue := queue + [k];
    }
  }
}
