/** The window of host tasks: they finish in any order, and their buffers are released in the order of acceptance. The
    read tasks and the write tasks have a window each. */
module SataManager {
  import opened Arith

  const WINDOW: nat := 32            // the bits of a status word

  /** The task of the window that starts at first which has status bit i. */
  function TaskAt(first: nat, i: nat): nat { first + (i - first) % WINDOW }

  /** Status bit i says whether its task has finished. */
  ghost predicate BitOk(status: seq<bool>, first: nat, finished: set<nat>, i: nat) {
    i < |status| && (status[i] <==> TaskAt(first, i) in finished)
  }

  ghost predicate BitsOk(status: seq<bool>, first: nat, finished: set<nat>) {
    |status| == WINDOW && forall i: nat {:trigger BitOk(status, first, finished, i)} | i < WINDOW ::
        BitOk(status, first, finished, i)
  }

  lemma TaskOfBit(first: nat, t: nat)
    requires first <= t < first + WINDOW
    ensures TaskAt(first, t % WINDOW) == t
  {
    var i := t % WINDOW;
    assert (i - first) % WINDOW == (t - first) % WINDOW by {
      assert i - first == (t - first) - (t / WINDOW) * WINDOW;
    }
  }

  lemma BitOfTask(first: nat, i: nat)
    requires i < WINDOW
    ensures first <= TaskAt(first, i) < first + WINDOW && TaskAt(first, i) % WINDOW == i
  {
    var m := (i - first) % WINDOW;
    assert (first + m) % WINDOW == i by {
      assert first + m == i - ((i - first) / WINDOW) * WINDOW;
    }
  }

  lemma SetBit(status: seq<bool>, first: nat, finished: set<nat>, t: nat)
    requires BitsOk(status, first, finished) && first <= t < first + WINDOW
    ensures BitsOk(status[t % WINDOW := true], first, finished + {t})
  {
    TaskOfBit(first, t);
    var status', finished' := status[t % WINDOW := true], finished + {t};
    forall i: nat | i < WINDOW ensures BitOk(status', first, finished', i) {
      assert BitOk(status, first, finished, i);
      BitOfTask(first, i);
    }
  }

  lemma NextTaskAt(first: nat, i: nat)
    requires i < WINDOW
    ensures TaskAt(first + 1, i) == if i == first % WINDOW then first + WINDOW else TaskAt(first, i)
  {
    BitOfTask(first, i);
    BitOfTask(first + 1, i);
    if i == first % WINDOW {
      TaskOfBit(first + 1, first + WINDOW);
    } else {
      TaskOfBit(first + 1, TaskAt(first, i));
    }
  }

  /** The window moves on: the bit of its first task becomes that of the task behind its end. */
  lemma MoveOn(status: seq<bool>, first: nat, finished: set<nat>)
    requires BitsOk(status, first, finished) && first + WINDOW !in finished
    ensures BitsOk(status[first % WINDOW := false], first + 1, finished)
  {
    var status', first' := status[first % WINDOW := false], first + 1;
    forall i: nat | i < WINDOW ensures BitOk(status', first', finished, i) {
      assert BitOk(status, first, finished, i);
      NextTaskAt(first, i);
    }
  }

  /** The tasks that wait for a release have different buffers, when there are as many as the window has tasks. */
  lemma OwnBuffers(first: nat, buffers: nat, t: nat, u: nat)
    requires WINDOW <= buffers && first <= t < u < first + WINDOW
    ensures t % buffers != u % buffers
  {
    assert t == (t / buffers) * buffers + t % buffers;
    OtherRemainder(buffers, t / buffers, t % buffers, u - t);
  }

  lemma OtherRemainder(d: nat, q: nat, r: nat, k: nat)
    requires r < d && 0 < k < d
    ensures (q * d + r + k) % d != r
  {
    var n := q * d + r + k;
    if r + k < d {
      DivUnique(n, d, q, r + k);
    } else {
      assert n == (q + 1) * d + (r + k - d);
      DivUnique(n, d, q + 1, r + k - d);
    }
  }

  class Tasks {
    const forReads: bool
    const buffers: nat               // NUM_SATA_RD_BUFFERS or NUM_SATA_WR_BUFFERS
    var nextAccept: nat
    var nextFinish: nat
    var status: seq<bool>
    var pointer: nat                 // BM_STACK_RDSET or BM_STACK_WRSET: the buffer before which all are released
    ghost var finished: set<nat>

    ghost predicate Base()
      reads this
    {
      && 0 < buffers && nextFinish <= nextAccept <= nextFinish + WINDOW
      && (forall t <- finished :: t < nextAccept)
      && (forall t: nat | t < nextFinish :: t in finished)
      && BitsOk(status, nextFinish, finished)
    }

    /** The tasks before nextFinish have finished, that one has not, and the hardware knows it. */
    ghost predicate Valid()
      reads this
    {
      Base() && nextFinish !in finished && pointer == nextFinish % buffers
    }

    constructor (forReads: bool, buffers: nat)
      requires 0 < buffers
      ensures Valid() && this.forReads == forReads && this.buffers == buffers && nextAccept == 0 && finished == {}
    {
      this.forReads, this.buffers, nextAccept, nextFinish, pointer, finished := forReads, buffers, 0, 0, 0, {};
      status := seq(WINDOW, i => false);
    }

    /** can_accept_read_task and can_accept_write_task; host is the buffer that the SATA hardware is at. */
    method CanAccept(host: nat) returns (r: bool)
      requires Valid()
      ensures r <==>
        nextAccept < nextFinish + WINDOW && (if forReads then nextAccept + 1 else nextAccept) % buffers != host
      ensures r ==> nextAccept !in finished && !status[nextAccept % WINDOW]
    {
      if nextAccept - nextFinish >= WINDOW {
        return false;
      }
      TaskOfBit(nextFinish, nextAccept);
      assert BitOk(status, nextFinish, finished, nextAccept % WINDOW);
      return (if forReads then nextAccept + 1 else nextAccept) % buffers != host;
    }

    method Accept() returns (t: nat)
      requires Valid() && nextAccept < nextFinish + WINDOW
      modifies this`nextAccept
      ensures Valid() && t == old(nextAccept) && nextAccept == t + 1
    {
      t := nextAccept;
      nextAccept := nextAccept + 1;
    }

    /** finish_read_task and finish_write_task. Whatever the order of the calls, exactly the buffers of the leading
        finished tasks have been released. */
    method Finish(t: nat)
      requires Valid() && nextFinish <= t < nextAccept
      modifies this`status, this`nextFinish, this`pointer, this`finished
      ensures Valid() && finished == old(finished) + {t}
      ensures nextFinish > old(nextFinish) <==> t == old(nextFinish)
    {
      SetBit(status, nextFinish, finished, t);
      status := status[t % WINDOW := true];
      finished := finished + {t};
      var count := 0;
      while status[nextFinish % WINDOW]
        invariant Base() && finished == old(finished) + {t} && nextFinish == old(nextFinish) + count
        invariant pointer == old(pointer)
        invariant t != old(nextFinish) ==> count == 0
        decreases nextAccept - nextFinish
      {
        FirstBit();
        MoveOn(status, nextFinish, finished);
        status := status[nextFinish % WINDOW := false];
        nextFinish := nextFinish + 1;
        count := count + 1;
      }
      FirstBit();
      if count == 0 {
        return;
      }
      pointer := nextFinish % buffers;
    }

    lemma FirstBit()
      requires Base()
      ensures status[nextFinish % WINDOW] <==> nextFinish in finished
      ensures nextFinish in finished ==> nextFinish < nextAccept
    {
      TaskOfBit(nextFinish, nextFinish);
      assert BitOk(status, nextFinish, finished, nextFinish % WINDOW);
    }

    /** are_all_tasks_finished, for one window. */
    method AllFinished() returns (r: bool)
      requires Valid()
      ensures r <==> forall t: nat | t < nextAccept :: t in finished
    {
      r := nextFinish == nextAccept;
    }
  }
}
