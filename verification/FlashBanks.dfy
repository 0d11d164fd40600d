/** The state of the flash banks as the scheduler and the threads see it, and the threads' flash accesses. */
module FlashBanks {
  import opened Arith
  import opened Sets
  import opened BankRules

  /** A thread: the flash accesses of its current phase, and the banks of those of its later phases. It has had its turn
      of this pass if seen. */
  datatype Thread = Thread(
    items: seq<Item>,
    asleep: bool,
    wakeup: set<nat>,
    seen: bool,
    later: seq<seq<nat>>,
    known: set<nat>)               // the commands that it has seen complete

  predicate LaterOk(later: seq<seq<nat>>, banks: nat)
  {
    forall i, j | 0 <= i < |later| && 0 <= j < |later[i]| :: later[i][j] < banks
  }

  function Completed(items: seq<Item>): set<nat> { set i | 0 <= i < |items| && items[i].Done? :: items[i].cmd }

  ghost predicate ThreadOk(t: Thread, banks: nat, flight: Commands, ended: Commands, ran: set<nat>) {
    && ItemsOk(t.items, banks, flight, ended, ran, if t.seen then |t.items| else 0)
    && (t.asleep ==> Watched(t.items, t.wakeup, |t.items|)) && t.known <= ran && LaterOk(t.later, banks)
  }

  ghost predicate ThreadsOk(ts: map<nat, Thread>, banks: nat, flight: Commands, ended: Commands, ran: set<nat>) {
    forall t {:trigger ThreadOk(ts[t], banks, flight, ended, ran)} | t in ts ::
        ThreadOk(ts[t], banks, flight, ended, ran)
  }

  /** Each bank that is not idle has one command; it has a number of its own, and is executed or has been. */
  ghost predicate FlightOk(flight: Commands, executing: set<nat>, ran: set<nat>, next: nat) {
    && executing <= flight.Keys
    && (forall b | b in flight :: flight[b] < next && (flight[b] in ran <==> b !in executing))
    && (forall b, c | b in flight && c in flight && b != c :: flight[b] != flight[c])
    && (forall c <- ran :: c < next)
  }

  /** The bank that is j places after bank s is not idle. */
  ghost predicate NotIdle(idle: set<nat>, s: nat, banks: nat, j: nat) { 0 < banks && (s + j) % banks !in idle }

  /** None of the k banks after bank s is idle. */
  ghost predicate NoneIdle(idle: set<nat>, s: nat, banks: nat, k: nat) {
    forall j: nat {:trigger NotIdle(idle, s, banks, j)} | 0 < j <= k :: NotIdle(idle, s, banks, j)
  }

  lemma SomeIdle(idle: set<nat>, s: nat, banks: nat)
    requires idle != {} && idle <= Below(banks) && s < banks
    ensures !NoneIdle(idle, s, banks, banks)
  {
    var x :| x in idle;
    var j := GoAround(s, x, banks);
    assert !NotIdle(idle, s, banks, j);
  }

  lemma PassKeepsThreads(ts: map<nat, Thread>, banks: nat, flight: Commands, ended: Commands, ran: set<nat>,
                         done: set<nat>)
    requires ThreadsOk(ts, banks, flight, ended, ran) && forall t | t in ts :: ts[t].seen
    ensures ThreadsOk(map t | t in ts :: ts[t].(seen := false), banks, flight - done,
                      flight - (flight.Keys - done), ran)
  {
    var us, flight', ended' := map t | t in ts :: ts[t].(seen := false), flight - done, flight - (flight.Keys - done);
    forall t | t in us ensures ThreadOk(us[t], banks, flight', ended', ran) {
      assert ThreadOk(ts[t], banks, flight, ended, ran);
      PassKeeps(ts[t].items, banks, flight, ended, ran, done);
    }
  }

  lemma PassKeepsFlight(flight: Commands, executing: set<nat>, ran: set<nat>, next: nat)
    requires FlightOk(flight, executing, ran, next)
    ensures var done := flight.Keys - executing;
      && FlightOk(flight - done, executing, ran, next) && (flight - done).Keys == executing
      && (flight - (flight.Keys - done)).Keys == done && forall b | b in done :: flight[b] in ran
  {
    var done := flight.Keys - executing;
    assert (flight - done).Keys == executing;
    assert (flight - (flight.Keys - done)).Keys == done;
  }

  /** The commands on the banks done that the thread had issued are known to be complete. */
  ghost predicate Caught(was: seq<Item>, known: set<nat>, done: set<nat>) {
    forall i | 0 <= i < |was| && was[i].Issued? && was[i].bank in done :: was[i].cmd in known
  }

  lemma CaughtAll(was: seq<Item>, now: seq<Item>, done: set<nat>)
    requires |now| == |was|
    requires forall i | 0 <= i < |was| && was[i].Issued? && was[i].bank in done ::
      now[i] == Done(was[i].bank, was[i].cmd)
    ensures Caught(was, Completed(now), done)
  {
    forall i | 0 <= i < |was| && was[i].Issued? && was[i].bank in done ensures was[i].cmd in Completed(now) {
      assert now[i].Done? && now[i].cmd == was[i].cmd;
    }
  }

  predicate AllTodo(items: seq<Item>) { forall i | 0 <= i < |items| :: items[i].Todo? }

  lemma CompletedRan(items: seq<Item>, banks: nat, flight: Commands, ended: Commands, ran: set<nat>, k: nat)
    requires ItemsOk(items, banks, flight, ended, ran, k)
    ensures Completed(items) <= ran
  {
    forall i | 0 <= i < |items| && items[i].Done? ensures items[i].cmd in ran {
      assert ItemOk(items, banks, flight, ended, ran, k, i);
    }
  }

  ghost predicate ServedAt(was: map<nat, Thread>, ts: map<nat, Thread>, complete: set<nat>, t: nat, yet: bool) {
    t in was && t in ts
    && if yet
        then ts[t].seen && Caught(was[t].items, ts[t].known, complete)
        else ts[t] == was[t].(seen := false)
  }

  /** The first n threads have had their turns. */
  ghost predicate Served(was: map<nat, Thread>, ts: map<nat, Thread>, complete: set<nat>, order: seq<nat>, n: nat) {
    && ts.Keys == was.Keys && n <= |order|
    && (forall m: nat {:trigger order[m]} | m < n :: ServedAt(was, ts, complete, order[m], true))
    && forall m: nat {:trigger order[m]} | n <= m < |order| :: ServedAt(was, ts, complete, order[m], false)
  }

  lemma ServedNext(was: map<nat, Thread>, ts: map<nat, Thread>, us: map<nat, Thread>, complete: set<nat>,
                   order: seq<nat>, n: nat)
    requires Served(was, ts, complete, order, n) && n < |order|
    requires forall i, j | 0 <= i < j < |order| :: order[i] != order[j]
    requires order[n] in ts && order[n] in us && us == ts[order[n] := us[order[n]]] && us[order[n]].seen
    requires Caught(ts[order[n]].items, us[order[n]].known, complete)
    ensures Served(was, us, complete, order, n + 1)
  {
    forall m: nat | m < |order| ensures ServedAt(was, us, complete, order[m], m <= n) {
      assert ServedAt(was, ts, complete, order[m], m < n);
    }
  }

  class Banks {
    const banks: nat                 // num_banks
    var idle: set<nat>               // idle_banks
    var complete: set<nat>           // complete_banks
    var signals: set<nat>            // g_scheduler_signals, as far as they are those of banks
    var cursor: nat                  // bank_i in fla_get_idle_bank
    var next: nat                    // the number of the next command
    var executing: set<nat>          // the banks whose hardware is busy
    var threads: map<nat, Thread>
    ghost var flight: Commands
    ghost var ended: Commands
    ghost var ran: set<nat>          // the commands that the flash has finished

    ghost predicate Masks()
      reads this`idle, this`complete, this`signals, this`cursor, this`flight, this`ended, this`ran
    {
      && 0 < banks && cursor < banks
      && idle == Below(banks) - flight.Keys && flight.Keys <= Below(banks)
      && complete == ended.Keys && (forall b | b in ended :: ended[b] in ran)
      && signals == idle + complete
    }

    ghost predicate Valid()
      reads this
    {
      Masks() && FlightOk(flight, executing, ran, next) && ThreadsOk(threads, banks, flight, ended, ran)
    }

    constructor (banks: nat)
      requires 0 < banks
      ensures Valid() && this.banks == banks && threads == map[]
    {
      this.banks := banks;
      idle, complete, signals, cursor, next, executing, threads := Below(banks), {}, Below(banks), banks - 1, 0, {},
          map[];
      flight, ended, ran := map[], map[], {};
    }

    // ---- fla.c ---------------------------------------------------------------------------------------------------

    /** The hardware finishes the command on bank b. The masks do not show it yet. */
    method Finish(b: nat)
      requires Valid() && b in executing
      modifies this`executing, this`ran
      ensures Valid() && executing == old(executing) - {b} && ran == old(ran) + {flight[b]}
    {
      forall t | t in threads ensures ThreadOk(threads[t], banks, flight, ended, ran + {flight[b]}) {
        assert ThreadOk(threads[t], banks, flight, ended, ran);
        FinishKeeps(threads[t].items, banks, flight, ended, ran,
                    if threads[t].seen then |threads[t].items| else 0, flight[b]);
      }
      ran := ran + {flight[b]};
      executing := executing - {b};
    }

    /** The banks whose state machines are idle. */
    method ReadStates() returns (r: set<nat>)
      ensures r == Below(banks) - executing
    {
      r := {};
      for b := 0 to banks
        invariant forall x: nat :: x in r <==> x < b && x !in executing
      {
        if b !in executing {
          r := r + {b};
        }
      }
    }

    /** The masks of fla_update_bank_state. */
    method UpdateMasks()
      requires Masks() && FlightOk(flight, executing, ran, next)
      modifies this`idle, this`complete, this`signals, this`flight, this`ended
      ensures Masks() && complete == old(flight).Keys - executing && idle == Below(banks) - executing
      ensures flight == old(flight) - complete && ended == old(flight) - (old(flight).Keys - complete)
    {
      var used := Below(banks) - idle;
      idle := ReadStates();
      complete := used * idle;
      signals := idle + complete;
      ghost var done := flight.Keys - executing;
      assert complete == done;
      flight, ended := flight - done, flight - (flight.Keys - done);
    }

    /** fla_update_bank_state, at the start of a pass, when every thread has had its turn of the last one. A bank is
        complete in this pass if its command has ended since the last. A thread that waits for banks is woken, unless
        they all are still executing. */
    method UpdateBankState()
      requires Valid() && forall t | t in threads :: threads[t].seen
      modifies this`idle, this`complete, this`signals, this`threads, this`flight, this`ended
      ensures Valid() && threads.Keys == old(threads).Keys
      ensures forall t | t in threads :: threads[t] == old(threads)[t].(seen := false)
      ensures complete == old(flight).Keys - executing && idle == Below(banks) - executing
      ensures forall b: nat | b < banks :: b in signals <==> b !in executing
    {
      ghost var done := flight.Keys - executing;
      PassKeepsThreads(threads, banks, flight, ended, ran, done);
      PassKeepsFlight(flight, executing, ran, next);
      UpdateMasks();
      threads := map t | t in threads :: threads[t].(seen := false);
    }

    /** fla_get_idle_bank: the first idle bank after the one that was returned last, if there is one. */
    method GetIdleBank() returns (b: nat)
      requires Masks()
      modifies this`cursor
      ensures idle == {} ==> b == banks
      ensures idle != {} ==> b in idle && b == cursor
      ensures idle != {} ==>
        exists k: nat :: k < banks && b == (old(cursor) + k + 1) % banks && NoneIdle(idle, old(cursor), banks, k)
    {
      b := banks;
      if idle == {} {
        return;
      }
      ghost var start := cursor;
      for i := 0 to banks
        invariant Masks() && cursor == (start + i) % banks && NoneIdle(idle, start, banks, i)
      {
        NextRemainder(start + i, banks);
        cursor := (cursor + 1) % banks;
        if cursor in idle {
          return cursor;
        }
      }
      SomeIdle(idle, start, banks);
    }

    // ---- the threads ---------------------------------------------------------------------------------------------

    /** A thread joins the scheduler between two passes. */
    method Join(t: nat, phases: seq<seq<nat>>)
      requires Valid() && t !in threads && LaterOk(phases, banks)
      modifies this`threads
      ensures Valid() && threads == old(threads)[t := Thread([], false, {}, true, phases, {})]
    {
      threads := threads[t := Thread([], false, {}, true, phases, {})];
    }

    /** The masks and the commands, and what all threads but one know. */
    ghost predicate Others(others: map<nat, Thread>)
      reads this`idle, this`complete, this`signals, this`cursor, this`next, this`executing, this`flight, this`ended
      reads this`ran
    {
      Masks() && FlightOk(flight, executing, ran, next) && ThreadsOk(others, banks, flight, ended, ran)
    }

    /** A thread in its turn has looked at its first k items. */
    ghost predicate Looking(items: seq<Item>, wakeup: set<nat>, k: nat)
      reads this`flight, this`ended, this`ran
    {
      ItemsOk(items, banks, flight, ended, ran, k) && Tried(items, flight, k) && Watched(items, wakeup, k)
    }

    /** fla_read_page and fla_write_page, on an idle bank. */
    method Issue(b: nat, ghost others: map<nat, Thread>) returns (cmd: nat)
      requires Others(others) && b in idle
      modifies this`idle, this`signals, this`next, this`executing, this`flight
      ensures Others(others) && flight == old(flight)[b := cmd] && cmd == old(next) && complete == old(complete)
    {
      cmd := next;
      forall t | t in others ensures ThreadOk(others[t], banks, flight[b := cmd], ended, ran) {
        assert ThreadOk(others[t], banks, flight, ended, ran);
        OthersUnharmed(others[t].items, banks, flight, ended, ran,
                       if others[t].seen then |others[t].items| else 0, b, cmd);
      }
      next := next + 1;
      executing := executing + {b};
      flight := flight[b := cmd];
      idle := idle - {b};
      signals := idle + complete;
    }

    /** One item of FLASH_READ_PHASE, or FLASH_WRITE_PHASE: if its command has been issued, the bank may be complete; if
        not, it may need none, or the bank may be idle now. */
    method Look(items: seq<Item>, wakeup: set<nat>, k: nat, ghost others: map<nat, Thread>)
      returns (items': seq<Item>, wakeup': set<nat>)
      requires Others(others) && Looking(items, wakeup, k) && k < |items|
      modifies this`idle, this`signals, this`next, this`executing, this`flight
      ensures Others(others) && Looking(items', wakeup', k + 1) && |items'| == |items|
      ensures forall i | 0 <= i < |items| :: items'[i].bank == items[i].bank && (i != k ==> items'[i] == items[i])
      ensures items[k].Issued? ==>
        items'[k] == if items[k].bank in complete then Done(items[k].bank, items[k].cmd) else items[k]
    {
      items', wakeup' := items, wakeup;
      ghost var now := items[k];
      match items[k] {
        case Issued(b, c) =>
          if b in complete {
            items' := items[k := Done(b, c)];
          } else {
            wakeup' := wakeup + {b};
          }
          LookKeeps(items, banks, flight, ended, ran, k, items'[k]);
        case Todo(b) =>
          var buffered := *;
          if buffered {
            items' := items[k := Spared(b)];
            LookKeeps(items, banks, flight, ended, ran, k, items'[k]);
          } else {
            wakeup' := wakeup + {b};
            assert ItemOk(items, banks, flight, ended, ran, k, k);
            if b in idle {
              IssueKeeps(items, banks, flight, ended, ran, k, next);
              var cmd := Issue(b, others);
              items' := items[k := Issued(b, cmd)];
            } else {
              LookKeeps(items, banks, flight, ended, ran, k, items[k]);
            }
          }
        case _ =>
          LookKeeps(items, banks, flight, ended, ran, k, items[k]);
      }
      assert items' == items[k := items'[k]];
    }

    /** The loop over the items, and the sleep after it if any are left. A thread runs it once in a pass, or again in a
        phase that it has just begun. */
    method Run(t: nat)
      requires Valid() && t in threads && (!threads[t].seen || AllTodo(threads[t].items))
      modifies this`idle, this`signals, this`next, this`executing, this`flight, this`threads
      ensures Valid() && t in threads && threads == old(threads)[t := threads[t]] && threads[t].seen
      ensures threads[t].later == old(threads)[t].later && old(threads)[t].known <= threads[t].known
      ensures threads[t].asleep || forall i | 0 <= i < |threads[t].items| :: Settled(threads[t].items[i])
      ensures Caught(old(threads)[t].items, threads[t].known, old(complete))
    {
      ghost var others := threads - {t};
      ghost var was := threads[t].items;
      assert ThreadOk(threads[t], banks, flight, ended, ran);
      var items, wakeup := threads[t].items, {};
      forall u | u in others ensures ThreadOk(others[u], banks, flight, ended, ran) {
        assert ThreadOk(threads[u], banks, flight, ended, ran);
      }
      if threads[t].seen {
        BanksExist(items, banks, flight, ended, ran, |items|);
        AllToDo(items, banks, flight, ended, ran, 0);
      }
      for k := 0 to |items|
        invariant Others(others) && Looking(items, wakeup, k) && |items| == |was| && threads == old(threads)
        invariant complete == old(complete)
        invariant forall i | k <= i < |was| :: items[i] == was[i]
        invariant forall i | 0 <= i < k && was[i].Issued? && was[i].bank in old(complete) ::
          items[i] == Done(was[i].bank, was[i].cmd)
        invariant wakeup == {} ==> forall i | 0 <= i < k :: Settled(items[i])
      {
        items, wakeup := Look(items, wakeup, k, others);
      }
      CompletedRan(items, banks, flight, ended, ran, |items|);
      CaughtAll(was, items, complete);
      threads := threads[t := Thread(items, wakeup != {}, wakeup, true, threads[t].later,
          threads[t].known + Completed(items))];
      forall u | u in threads ensures ThreadOk(threads[u], banks, flight, ended, ran) {
        assert u != t ==> ThreadOk(others[u], banks, flight, ended, ran);
      }
    }

    /** A thread that has nothing left to wait for goes on to its next phase. */
    method Begin(t: nat)
      requires Valid() && t in threads && threads[t].seen && !threads[t].asleep && threads[t].later != []
      modifies this`threads
      ensures Valid() && t in threads && threads == old(threads)[t := threads[t]] && threads[t].seen
      ensures AllTodo(threads[t].items)
      ensures threads[t].later == old(threads)[t].later[1..] && threads[t].known == old(threads)[t].known
    {
      ghost var ts := threads;
      assert ThreadOk(ts[t], banks, flight, ended, ran);
      var wants := threads[t].later[0];
      var items := seq(|wants|, i requires 0 <= i < |wants| => Todo(wants[i]));
      AllToDo(items, banks, flight, ended, ran, |items|);
      threads := threads[t := threads[t].(items := items, later := threads[t].later[1..])];
      forall u | u in threads ensures ThreadOk(threads[u], banks, flight, ended, ran) {
        assert ThreadOk(ts[u], banks, flight, ended, ran);
      }
    }

    /** The turn of a sleeping thread none of whose signals is set. */
    method Skip(t: nat)
      requires Valid() && t in threads && !threads[t].seen && threads[t].asleep && threads[t].wakeup !! signals
      modifies this`threads
      ensures Valid() && threads == old(threads)[t := old(threads)[t].(seen := true)]
      ensures forall i | 0 <= i < |threads[t].items| && threads[t].items[i].Issued? ::
        threads[t].items[i].bank !in complete
    {
      ghost var ts := threads;
      assert ThreadOk(ts[t], banks, flight, ended, ran);
      NothingToSee(ts[t].items, banks, flight, ended, ran, ts[t].wakeup);
      threads := threads[t := threads[t].(seen := true)];
      forall u | u in threads ensures ThreadOk(threads[u], banks, flight, ended, ran) {
        assert u != t ==> ThreadOk(ts[u], banks, flight, ended, ran);
      }
    }

    /** One turn of a pass: a thread that wakes up goes on from phase to phase until it has to wait for a bank. */
    method TakeTurn(t: nat)
      requires Valid() && t in threads && !threads[t].seen
      modifies this`idle, this`signals, this`next, this`executing, this`flight, this`threads
      ensures Valid() && t in threads && threads == old(threads)[t := threads[t]] && threads[t].seen
      ensures Caught(old(threads)[t].items, threads[t].known, complete)
    {
      if threads[t].asleep && threads[t].wakeup !! signals {
        Skip(t);
        return;
      }
      Run(t);
      while !threads[t].asleep && threads[t].later != []
        invariant Valid() && t in threads && threads == old(threads)[t := threads[t]] && threads[t].seen
        invariant Caught(old(threads)[t].items, threads[t].known, complete)
        decreases |threads[t].later|
      {
        Begin(t);
        Run(t);
      }
    }

    /** One pass of the scheduler, over the threads in any order. Whatever the threads before it do with the bank, each
        thread sees every one of its commands that has ended since the last pass. */
    method Pass(order: seq<nat>)
      requires Valid() && (forall t | t in threads :: threads[t].seen && t in order)
      requires (forall t <- order :: t in threads)
      requires forall i, j | 0 <= i < j < |order| :: order[i] != order[j]
      modifies this`idle, this`complete, this`signals, this`next, this`executing, this`threads, this`flight, this`ended
      ensures Valid() && threads.Keys == old(threads).Keys && forall t | t in threads :: threads[t].seen
      ensures forall t {:trigger threads[t]} | t in threads ::
                Caught(old(threads)[t].items, threads[t].known, old(flight).Keys - old(executing))
    {
      UpdateBankState();
      for n := 0 to |order|
        invariant Valid() && Served(old(threads), threads, complete, order, n)
        invariant complete == old(flight).Keys - old(executing)
      {
        ghost var ts := threads;
        assert order[n] in ts;
        TakeTurn(order[n]);
        ServedNext(old(threads), ts, threads, complete, order, n);
      }
      forall t | t in threads ensures threads[t].seen && Caught(old(threads)[t].items, threads[t].known, complete) {
        var m :| 0 <= m < |order| && order[m] == t;
      }
    }
  }
}
