/** The cooperative scheduler: a linked list of thread slots, and passes over it that give each thread its turn. */
module Scheduler {
  import opened Sets

  const NULL_ID: nat := 0x3F         // NULL_THREAD_ID

  datatype Mode = Runnable | Sleeping | Stopped

  // ---- queues as values ---------------------------------------------------------------------------------------

  /** The threads of a queue that have not stopped, in order. */
  function Kept(queue: seq<nat>, stopped: set<nat>): (r: seq<nat>)
    ensures forall t :: t in r <==> t in queue && t !in stopped
  {
    if queue == [] then []
    else
      var rest, last := Kept(queue[..|queue| - 1], stopped), queue[|queue| - 1];
      assert queue == queue[..|queue| - 1] + [last];
      if last in stopped then rest else rest + [last]
  }

  ghost predicate Distinct(queue: seq<nat>) { forall i, j | 0 <= i < j < |queue| :: queue[i] != queue[j] }

  /** Thread t is somewhere before thread u. */
  ghost predicate Ahead(queue: seq<nat>, t: nat, u: nat)
  {
    exists i, j :: 0 <= i < j < |queue| && queue[i] == t && queue[j] == u
  }

  /** The threads that stay in the list stay in their order: of two that do, the one that arrived first is served
      first. */
  lemma {:induction false} KeptKeepsOrder(queue: seq<nat>, stopped: set<nat>, t: nat, u: nat)
    requires t !in stopped && u !in stopped
    ensures Ahead(Kept(queue, stopped), t, u) <==> Ahead(queue, t, u)
  {
    if queue == [] {
    } else {
      var init, last := queue[..|queue| - 1], queue[|queue| - 1];
      assert queue == init + [last];
      KeptKeepsOrder(init, stopped, t, u);
      AheadInLonger(init, last, t, u);
      AheadInLonger(Kept(init, stopped), last, t, u);
    }
  }

  lemma AheadInLonger(queue: seq<nat>, last: nat, t: nat, u: nat)
    ensures Ahead(queue + [last], t, u) <==> Ahead(queue, t, u) || (last == u && t in queue)
  {
    var longer := queue + [last];
    if Ahead(queue, t, u) {
      var i, j :| 0 <= i < j < |queue| && queue[i] == t && queue[j] == u;
      assert longer[i] == t && longer[j] == u;
    } else if last == u && t in queue {
      var i :| 0 <= i < |queue| && queue[i] == t;
      assert longer[i] == t && longer[|queue|] == u;
    }
    if Ahead(longer, t, u) {
      var i, j :| 0 <= i < j < |longer| && longer[i] == t && longer[j] == u;
      assert queue[i] == t;
      assert j < |queue| ==> queue[j] == u;
    }
  }

  lemma {:induction false} KeptKeepsDistinct(queue: seq<nat>, stopped: set<nat>)
    requires Distinct(queue)
    ensures Distinct(Kept(queue, stopped))
  {
    if queue == [] {
    } else {
      KeptKeepsDistinct(queue[..|queue| - 1], stopped);
    }
  }

  /** One more thread of a pass. */
  lemma KeptNext(queue: seq<nat>, stopped: set<nat>, i: nat, stop: bool)
    requires i < |queue| && Distinct(queue)
    ensures var stopped' := if stop then stopped + {queue[i]} else stopped - {queue[i]};
      Kept(queue[..i + 1], stopped') ==
      if stop then Kept(queue[..i], stopped) else Kept(queue[..i], stopped) + [queue[i]]
  {
    assert queue[..i + 1][..i] == queue[..i];
    SameKept(queue[..i], stopped, if stop then stopped + {queue[i]} else stopped - {queue[i]});
  }

  lemma {:induction false} SameKept(queue: seq<nat>, stopped: set<nat>, stopped': set<nat>)
    requires forall t <- queue :: t in stopped <==> t in stopped'
    ensures Kept(queue, stopped) == Kept(queue, stopped')
  {
    if queue == [] {
    } else {
      SameKept(queue[..|queue| - 1], stopped, stopped');
    }
  }

  // ---- the linked list ----------------------------------------------------------------------------------------

  /** The slot that comes before place i of the queue: the head of the list comes before them all. */
  function Before(queue: seq<nat>, head: nat, i: nat): nat
    requires i <= |queue|
  {
    if i == 0 then head else queue[i - 1]
  }

  ghost predicate LinkOk(next: seq<nat>, queue: seq<nat>, head: nat, i: nat)
    requires i <= |queue|
  {
    Before(queue, head, i) < |next| && next[Before(queue, head, i)] == if i < |queue| then queue[i] else NULL_ID
  }

  ghost predicate Linked(next: seq<nat>, queue: seq<nat>, head: nat) {
    && Distinct(queue) && (forall t <- queue :: t < head)
    && forall i: nat {:trigger LinkOk(next, queue, head, i)} | i <= |queue| :: LinkOk(next, queue, head, i)
  }

  /** Every slot of the list comes before one place only. */
  lemma BeforeOnce(queue: seq<nat>, head: nat, i: nat, j: nat)
    requires Distinct(queue) && (forall t <- queue :: t < head) && i < j <= |queue|
    ensures Before(queue, head, i) != Before(queue, head, j)
  {
    assert queue[j - 1] in queue;
  }

  lemma LinkLast(next: seq<nat>, queue: seq<nat>, head: nat, t: nat)
    requires Linked(next, queue, head) && t < head < |next| && t !in queue
    ensures var tail := Before(queue, head, |queue|);
      tail < |next| && Linked(next[t := NULL_ID][tail := t], queue + [t], head)
  {
    var tail, longer := Before(queue, head, |queue|), queue + [t];
    assert LinkOk(next, queue, head, |queue|);
    var next' := next[t := NULL_ID][tail := t];
    forall i: nat | i <= |longer| ensures LinkOk(next', longer, head, i) {
      if i < |queue| {
        assert LinkOk(next, queue, head, i);
        BeforeOnce(queue, head, i, |queue|);
        assert i > 0 ==> queue[i - 1] in queue;
      }
    }
  }

  lemma Unlink(next: seq<nat>, queue: seq<nat>, head: nat, i: nat)
    requires Linked(next, queue, head) && i < |queue| && head < |next|
    ensures var pre := Before(queue, head, i);
      && pre < |next| && queue[i] < |next|
      && Linked(next[pre := next[queue[i]]], queue[..i] + queue[i + 1..], head)
  {
    assert LinkOk(next, queue, head, i) && LinkOk(next, queue, head, i + 1);
    var pre, shorter := Before(queue, head, i), queue[..i] + queue[i + 1..];
    var next' := next[pre := next[queue[i]]];
    forall t <- shorter ensures t < head {
      assert t in queue;
    }
    forall j: nat | j <= |shorter| ensures LinkOk(next', shorter, head, j) {
      if j < i {
        assert LinkOk(next, queue, head, j);
        BeforeOnce(queue, head, j, i);
      } else if j > i {
        assert LinkOk(next, queue, head, j + 1);
        BeforeOnce(queue, head, i, j + 1);
      }
    }
  }

  // ---- the scheduler ----------------------------------------------------------------------------------------------

  /** What happens to one thread in a pass: the signals that are set when its turn comes, and those that it leaves. */
  datatype Turn = Turn(thread: nat, ran: bool, before: set<nat>, after: set<nat>)

  class Threads {
    const slots: nat                 // MAX_NUM_THREADS; slot number slots is the head of the list
    const next: array<nat>           // next_id
    const mode: array<Mode>
    const wakeup: array<set<nat>>    // wakeup_signals
    var tail: nat
    var signals: set<nat>            // g_scheduler_signals
    var free: set<nat>               // the slab: slots without a thread
    ghost var queue: seq<nat>

    ghost predicate Shape()
      reads this
    {
      && slots < NULL_ID && next.Length == slots + 1 && mode.Length == slots + 1 && wakeup.Length == slots + 1
      && (forall t <- free :: t < slots) && (forall t <- queue :: t !in free)
    }

    /** The links lead through the queue from the head to the tail. */
    ghost predicate Valid()
      reads this, next
    {
      Shape() && Linked(next[..], queue, slots) && tail == Before(queue, slots, |queue|)
    }

    constructor (slots: nat)
      requires slots < NULL_ID
      ensures Valid() && queue == [] && this.slots == slots && (forall t: nat :: t in free <==> t < slots)
      ensures fresh(next) && fresh(mode) && fresh(wakeup)
    {
      this.slots := slots;
      next := new nat[slots + 1](i => NULL_ID);
      mode := new Mode[slots + 1](i => Sleeping);
      wakeup := new set<nat>[slots + 1](i => {});
      tail, signals, queue := slots, {}, [];
      free := Below(slots);
      new;
      assert LinkOk(next[..], queue, slots, 0);
    }

    /** thread_allocate: a slot of its own. */
    method Allocate() returns (t: nat)
      requires Valid() && free != {}
      modifies this`free, next, mode, wakeup
      ensures t in old(free) && free == old(free) - {t} && t !in queue && Valid()
      ensures mode[..] == old(mode[..])[t := Runnable] && wakeup[..] == old(wakeup[..])[t := {}]
    {
      t :| t in free;
      free := free - {t};
      mode[t], next[t], wakeup[t] := Runnable, NULL_ID, {};
      ghost var was := old(next[..]);
      forall i: nat | i <= |queue| ensures LinkOk(next[..], queue, slots, i) {
        assert LinkOk(was, queue, slots, i);
      }
    }

    /** enqueue: the new thread is the last. */
    method Enqueue(t: nat)
      requires Valid() && t < slots && t !in queue && t !in free
      modifies this`tail, this`queue, next, mode
      ensures Valid() && queue == old(queue) + [t] && mode[..] == old(mode[..])[t := Runnable]
    {
      LinkLast(next[..], queue, slots, t);
      mode[t] := Runnable;
      next[t] := NULL_ID;
      next[tail] := t;
      assert next[..] == old(next[..])[t := NULL_ID][tail := t];
      tail := t;
      queue := queue + [t];
    }

    /** remove: thread t, which comes after slot pre, leaves the list, and its slot is free again. */
    method Remove(t: nat, pre: nat, ghost i: nat)
      requires Valid() && i < |queue| && queue[i] == t && pre == Before(queue, slots, i)
      modifies this`tail, this`queue, this`free, next
      ensures Valid() && queue == old(queue)[..i] + old(queue)[i + 1..] && free == old(free) + {t}
    {
      Unlink(next[..], queue, slots, i);
      ghost var shorter := queue[..i] + queue[i + 1..];
      assert i + 1 < |queue| ==> queue[|queue| - 1] != t;
      next[pre] := next[t];
      assert next[..] == old(next[..])[pre := old(next[..])[t]];
      if t == tail {
        tail := pre;
      }
      assert tail == Before(shorter, slots, |shorter|);
      assert forall u <- shorter :: u in queue && u != t;
      queue := shorter;
      free := free + {t};
    }

    /** A thread's handler: it may change its own state and the signals in any way. */
    method Handler(t: nat)
      requires t < mode.Length && t < wakeup.Length
      modifies this`signals, mode, wakeup
      ensures mode[..] == old(mode[..])[t := mode[t]] && wakeup[..] == old(wakeup[..])[t := wakeup[t]]
    {
      mode[t] := *;
      wakeup[t] := *;
      signals := *;
    }

    /** One turn: a sleeping thread with one of its signals wakes up, and a thread that is awake runs. */
    method GiveTurn(t: nat) returns (turn: Turn)
      requires Valid() && t in queue
      modifies this`signals, mode, wakeup
      ensures Valid() && turn == Turn(t, turn.ran, old(signals), signals)
      ensures turn.ran <==>
        old(mode[t]) == Runnable || (old(mode[t]) == Sleeping && old(wakeup[t]) * old(signals) != {})
      ensures forall u | 0 <= u <= slots && u != t :: mode[u] == old(mode[u]) && wakeup[u] == old(wakeup[u])
      ensures !turn.ran ==> mode[t] == old(mode[t]) && wakeup[t] == old(wakeup[t]) && signals == old(signals)
    {
      var seen := signals;
      if mode[t] == Sleeping && wakeup[t] * seen != {} {
        mode[t] := Runnable;
      }
      if mode[t] != Runnable {
        return Turn(t, false, seen, seen);
      }
      label L:
      Handler(t);
      assert forall u | 0 <= u <= slots && u != t ::
        mode[..][u] == old@L(mode[..])[u] && wakeup[..][u] == old@L(wakeup[..])[u];
      turn := Turn(t, true, seen, signals);
    }

    /** In the middle of a pass: i threads of the queue was have had their turns, and pre is the last that is still
        there. */
    ghost predicate Midway(was: seq<nat>, modes: seq<Mode>, wakes: seq<set<nat>>, turns: seq<Turn>, stopped: set<nat>,
                           pre: nat, i: nat)
      reads this, next, mode, wakeup
    {
      && Valid() && |turns| == i && Halfway(was, stopped, queue, slots, pre, i)
      && Gone(was, mode[..], stopped, i) && Woken(turns, was, modes, wakes, i)
      && Waiting(was, modes, wakes, mode[..], wakeup[..], i)
    }

    /** The turn of one thread, and its removal if it stops. */
    method Next(pre: nat, ghost was: seq<nat>, ghost modes: seq<Mode>, ghost wakes: seq<set<nat>>,
                ghost turns: seq<Turn>, ghost stopped: set<nat>, ghost i: nat)
      returns (turn: Turn, last: nat, ghost gone: set<nat>)
      requires Midway(was, modes, wakes, turns, stopped, pre, i) && next[pre] != NULL_ID
      modifies this`tail, this`signals, this`free, this`queue, next, mode, wakeup
      ensures i < |was| && turn.thread == was[i] && turn.before == old(signals) && turn.after == signals
      ensures Midway(was, modes, wakes, turns + [turn], gone, last, i + 1)
      ensures free - old(free) == gone - stopped && stopped <= gone && old(free) <= free
    {
      ghost var k := |Kept(was[..i], stopped)|;
      assert LinkOk(next[..], queue, slots, k);
      var t := next[pre];
      assert t == was[i] == queue[k];
      ghost var modes', wakes' := mode[..], wakeup[..];
      turn := GiveTurn(t);
      gone := if mode[t] == Stopped then stopped + {t} else stopped;
      TurnTaken(was, modes, wakes, modes', wakes', mode[..], wakeup[..], turns, turn, stopped, gone, i);
      QueueAfter(was, stopped, gone, queue, slots, pre, i);
      if mode[t] == Stopped {
        Remove(t, pre, k);
        last := pre;
      } else {
        last := t;
      }
    }

    /** The loop of schedule. */
    method ServeAll(ghost was: seq<nat>, ghost modes: seq<Mode>, ghost wakes: seq<set<nat>>, ghost banks: set<nat>)
      returns (ghost turns: seq<Turn>, ghost stopped: set<nat>)
      requires Midway(was, modes, wakes, [], {}, slots, 0) && PassSoFar([], was, banks, 0) && signals == banks
      modifies this`tail, this`signals, this`free, this`queue, next, mode, wakeup
      ensures Valid() && queue == Kept(was, stopped) && Gone(was, mode[..], stopped, |was|)
      ensures Pass(turns, was, banks) && Woken(turns, was, modes, wakes, |was|)
    {
      turns, stopped := [], {};
      var pre := slots;
      while next[pre] != NULL_ID
        invariant Midway(was, modes, wakes, turns, stopped, pre, |turns|) && PassSoFar(turns, was, banks, |turns|)
        invariant signals == Left(turns, banks)
        decreases |was| - |turns|
      {
        var turn;
        ghost var before := turns;
        turn, pre, stopped := Next(pre, was, modes, wakes, turns, stopped, |turns|);
        turns := turns + [turn];
        PassNext(before, was, banks, |before|, turn);
      }
      PassEnds(next[..], was, stopped, queue, slots, pre, |turns|);
    }

    lemma BeforeFirst(banks: set<nat>)
      requires Valid()
      ensures Midway(queue, mode[..], wakeup[..], [], {}, slots, 0) && PassSoFar([], queue, banks, 0)
    {
      PassStarts(next[..], queue, mode[..], wakeup[..], slots, banks);
    }

    /** schedule, when the banks give the signals banks. Each thread of the list has one turn, in order, in which it
        runs if it is awake or has one of the signals that are set by then: those of the banks, and those of the threads
        before it, but none of earlier passes. The threads that stop in their turns leave the list. */
    method Schedule(banks: set<nat>) returns (ghost turns: seq<Turn>, ghost stopped: set<nat>)
      requires Valid()
      modifies this`tail, this`signals, this`free, this`queue, next, mode, wakeup
      ensures Valid() && queue == Kept(old(queue), stopped) && Gone(old(queue), mode[..], stopped, |old(queue)|)
      ensures Pass(turns, old(queue), banks) && Woken(turns, old(queue), old(mode[..]), old(wakeup[..]), |old(queue)|)
    {
      ghost var was := queue;
      signals := banks;
      BeforeFirst(banks);
      turns, stopped := ServeAll(was, mode[..], wakeup[..], banks);
    }
  }

  lemma PassStarts(next: seq<nat>, was: seq<nat>, modes: seq<Mode>, wakes: seq<set<nat>>, head: nat, banks: set<nat>)
    requires Linked(next, was, head) && head < |next| == |modes| == |wakes|
    ensures Halfway(was, {}, was, head, head, 0) && Gone(was, modes, {}, 0) && Woken([], was, modes, wakes, 0)
    ensures Waiting(was, modes, wakes, modes, wakes, 0) && LinkOk(next, was, head, 0) && PassSoFar([], was, banks, 0)
  {
    assert LinkOk(next, was, head, 0);
    assert was[..0] == [] && was[0..] == was;
    forall j | 0 <= j < |was| ensures was[j] < |modes| {
      assert was[j] in was;
    }
  }

  lemma PassEnds(next: seq<nat>, was: seq<nat>, stopped: set<nat>, queue: seq<nat>, head: nat, pre: nat, i: nat)
    requires Linked(next, queue, head) && Halfway(was, stopped, queue, head, pre, i) && head < NULL_ID
    requires pre < |next| && next[pre] == NULL_ID
    ensures i == |was| && queue == Kept(was, stopped) && was[..i] == was
  {
    var k := |Kept(was[..i], stopped)|;
    forall j | 0 <= j < |queue| ensures queue[j] != NULL_ID {
      assert queue[j] in queue;
    }
    assert LinkOk(next, queue, head, k);
    assert was[..|was|] == was && was[|was|..] == [];
  }

  /** The threads that had their turns are those of the queue, in order, each once; the first sees only the signals of
      the banks, and each of the others what the one before it leaves. */
  ghost predicate Pass(turns: seq<Turn>, was: seq<nat>, banks: set<nat>) {
    |turns| == |was| && forall j: nat {:trigger InTurn(turns, was, banks, j)} | j < |was| ::
        InTurn(turns, was, banks, j)
  }

  ghost predicate InTurn(turns: seq<Turn>, was: seq<nat>, banks: set<nat>, j: nat) {
    j < |turns| && j < |was| && turns[j].thread == was[j]
    && turns[j].before == if j == 0 then banks else turns[j - 1].after
  }

  /** The signals after some turns. */
  function Left(turns: seq<Turn>, banks: set<nat>): set<nat> { if turns == [] then banks else turns[|turns| - 1].after }

  ghost predicate PassSoFar(turns: seq<Turn>, was: seq<nat>, banks: set<nat>, i: nat)
  {
    i <= |was| && Pass(turns, was[..i], banks)
  }

  lemma PassNext(turns: seq<Turn>, was: seq<nat>, banks: set<nat>, i: nat, turn: Turn)
    requires PassSoFar(turns, was, banks, i) && i < |was| && turn.thread == was[i] && turn.before == Left(turns, banks)
    ensures PassSoFar(turns + [turn], was, banks, i + 1)
  {
    var more, upto := turns + [turn], was[..i + 1];
    forall j: nat | j < i + 1 ensures InTurn(more, upto, banks, j) {
      assert j < i ==> InTurn(turns, was[..i], banks, j);
    }
  }

  /** The first i threads have run exactly if they were awake, or had one of the signals of their turn. */
  ghost predicate Woken(turns: seq<Turn>, was: seq<nat>, modes: seq<Mode>, wakes: seq<set<nat>>, i: nat) {
    && i <= |was| && i <= |turns|
    && forall j | 0 <= j < i :: was[j] < |modes| && was[j] < |wakes| &&
         (turns[j].ran <==>
             modes[was[j]] == Runnable || (modes[was[j]] == Sleeping && wakes[was[j]] * turns[j].before != {}))
  }

  /** Of the first i threads, those that have stopped. */
  ghost predicate Gone(was: seq<nat>, modes: seq<Mode>, stopped: set<nat>, i: nat) {
    && i <= |was| && (forall t <- stopped :: t in was[..i])
    && forall j | 0 <= j < i :: was[j] < |modes| && (was[j] in stopped <==> modes[was[j]] == Stopped)
  }

  /** The list when i threads of the queue was have had their turns. */
  ghost predicate Halfway(was: seq<nat>, stopped: set<nat>, queue: seq<nat>, head: nat, pre: nat, i: nat) {
    && i <= |was| && Distinct(was) && queue == Kept(was[..i], stopped) + was[i..]
    && pre == Before(queue, head, |Kept(was[..i], stopped)|) && pre <= head
  }

  /** The threads that have not had their turns yet are as they were. */
  ghost predicate Waiting(was: seq<nat>, modes: seq<Mode>, wakes: seq<set<nat>>, modes': seq<Mode>,
                          wakes': seq<set<nat>>, i: nat)
  {
    && |modes'| == |modes| == |wakes'| == |wakes|
    && forall j | i <= j < |was| ::
         was[j] < |modes| && modes'[was[j]] == modes[was[j]] && wakes'[was[j]] == wakes[was[j]]
  }

  lemma QueueAfter(was: seq<nat>, stopped: set<nat>, gone: set<nat>, queue: seq<nat>, head: nat, pre: nat, i: nat)
    requires Halfway(was, stopped, queue, head, pre, i) && i < |was| && was[i] <= head
    requires (forall t <- stopped :: t in was[..i]) && (gone == stopped || gone == stopped + {was[i]})
    ensures var k := |Kept(was[..i], stopped)|;
      if gone == stopped then Halfway(was, gone, queue, head, was[i], i + 1)
      else Halfway(was, gone, queue[..k] + queue[k + 1..], head, pre, i + 1)
  {
    KeptNext(was, stopped, i, gone != stopped);
    assert was[i] !in stopped;
    assert stopped - {was[i]} == stopped;
    var k := |Kept(was[..i], stopped)|;
    assert queue[..k] == Kept(was[..i], stopped) && queue[k + 1..] == was[i + 1..];
    if gone == stopped {
      assert queue == Kept(was[..i], stopped) + [was[i]] + was[i + 1..];
    }
  }

  lemma TurnTaken(was: seq<nat>, modes: seq<Mode>, wakes: seq<set<nat>>, modes1: seq<Mode>, wakes1: seq<set<nat>>,
                  modes2: seq<Mode>, wakes2: seq<set<nat>>, turns: seq<Turn>, turn: Turn, stopped: set<nat>,
                  gone: set<nat>, i: nat)
    requires i < |was| && |turns| == i && Distinct(was) && Gone(was, modes1, stopped, i)
    requires Woken(turns, was, modes, wakes, i)
    requires Waiting(was, modes, wakes, modes1, wakes1, i) && |modes2| == |modes| == |wakes2|
    requires forall u | 0 <= u < |modes| && u != was[i] :: modes2[u] == modes1[u] && wakes2[u] == wakes1[u]
    requires turn.ran <==>
      modes1[was[i]] == Runnable || (modes1[was[i]] == Sleeping && wakes1[was[i]] * turn.before != {})
    requires gone == if modes2[was[i]] == Stopped then stopped + {was[i]} else stopped
    ensures Gone(was, modes2, gone, i + 1) && Woken(turns + [turn], was, modes, wakes, i + 1)
    ensures Waiting(was, modes, wakes, modes2, wakes2, i + 1)
  {
    forall t <- gone ensures t in was[..i + 1] {
      assert t != was[i] ==> t in was[..i];
    }
    assert was[i] !in stopped by {
      assert was[i] !in was[..i];
    }
    forall j | 0 <= j < i ensures was[j] in gone <==> modes2[was[j]] == Stopped {
      assert was[j] != was[i];
    }
  }

  // ---- a signal that is set in a pass ------------------------------------------------------------------------------

  /** No thread of the pass clears signal x. */
  ghost predicate KeepsSignal(turns: seq<Turn>, x: nat) {
    forall j {:trigger turns[j]} | 0 <= j < |turns| && x in turns[j].before :: x in turns[j].after
  }

  lemma {:induction false} SignalStays(turns: seq<Turn>, was: seq<nat>, banks: set<nat>, x: nat, i: nat, j: nat)
    requires Pass(turns, was, banks) && KeepsSignal(turns, x) && i < j < |was| && x in turns[i].after
    ensures x in turns[j].before
  {
    assert InTurn(turns, was, banks, j);
    if i == j - 1 {
    } else {
      SignalStays(turns, was, banks, x, i, j - 1);
    }
  }

  /** A thread that waits for signal x runs in the pass in which a thread before it in the list sets x. */
  lemma SignalWakes(turns: seq<Turn>, was: seq<nat>, banks: set<nat>, modes: seq<Mode>, wakes: seq<set<nat>>, x: nat,
                    i: nat, j: nat)
    requires Pass(turns, was, banks) && Woken(turns, was, modes, wakes, |was|) && KeepsSignal(turns, x)
    requires i < j < |was| && x in turns[i].after && modes[was[j]] == Sleeping && x in wakes[was[j]]
    ensures turns[j].ran
  {
    SignalStays(turns, was, banks, x, i, j);
    assert x in wakes[was[j]] * turns[j].before;
  }

  /** The thread that is first stays first until it stops. The first is that of the PMT, which sets SIG_PMT_LOADED. */
  lemma {:induction false} FirstStays(queue: seq<nat>, stopped: set<nat>)
    requires queue != [] && queue[0] !in stopped
    ensures Kept(queue, stopped) != [] && Kept(queue, stopped)[0] == queue[0]
  {
    if |queue| == 1 {
      assert queue[..0] == [];
    } else {
      FirstStays(queue[..|queue| - 1], stopped);
    }
  }
}
