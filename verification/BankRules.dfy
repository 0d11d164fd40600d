/** What threads know of the flash commands that they have issued: at most one is under way on each bank, and a bank's
    completion is visible for one pass of the scheduler only. */
module BankRules {

  /** One flash access of a thread: a segment to read, a sub-page to fetch, or a page to write. A command has a
      number. */
  datatype Item =
    | Todo(bank: nat)
    | Issued(bank: nat, cmd: nat)
    | Done(bank: nat, cmd: nat)      // the thread has seen its command complete
    | Spared(bank: nat)              // no command was needed: the data was in a buffer

  predicate Settled(it: Item) { it.Done? || it.Spared? }

  /** The last command on each bank that is not idle, or on each bank whose command completed at the start of this
      pass. */
  type Commands = map<nat, nat>

  /** A thread that has issued the command on a bank and not seen it complete: before it looks in this pass, if the bank
      has completed, it is this command that has; and otherwise it is under way. */
  ghost predicate Tracked(it: Item, flight: Commands, ended: Commands, looked: bool) {
    it.Issued? ==>
      if !looked && it.bank in ended then ended[it.bank] == it.cmd else it.bank in flight && flight[it.bank] == it.cmd
  }

  /** A thread has taken a command for complete only when the flash had really finished it. */
  ghost predicate Honest(it: Item, banks: nat, ran: set<nat>) { it.bank < banks && (it.Done? ==> it.cmd in ran) }

  /** The items before an issued one, if they are on the same bank, have been dealt with. */
  ghost predicate InOrder(items: seq<Item>, i: nat, j: nat) {
    i < j < |items| && items[j].Issued? && items[i].bank == items[j].bank ==> Settled(items[i])
  }

  ghost predicate ItemOk(items: seq<Item>, banks: nat, flight: Commands, ended: Commands, ran: set<nat>, k: nat, i: nat)
  {
    i < |items| ==> Tracked(items[i], flight, ended, i < k) && Honest(items[i], banks, ran)
  }

  /** The items of a thread in its turn: those before k have been looked at. */
  ghost predicate ItemsOk(items: seq<Item>, banks: nat, flight: Commands, ended: Commands, ran: set<nat>, k: nat) {
    && (forall i: nat {:trigger ItemOk(items, banks, flight, ended, ran, k, i)} ::
         ItemOk(items, banks, flight, ended, ran, k, i))
    && (forall i: nat, j: nat {:trigger InOrder(items, i, j)} :: InOrder(items, i, j))
  }

  /** The thread asks for the signals of the banks that its first k items wait for. */
  ghost predicate Watched(items: seq<Item>, wakeup: set<nat>, k: nat) {
    k <= |items| && forall i | 0 <= i < k && !Settled(items[i]) :: items[i].bank in wakeup
  }

  /** Those of the first k items that still want a bank found it busy. */
  ghost predicate Tried(items: seq<Item>, flight: Commands, k: nat) {
    k <= |items| && forall i | 0 <= i < k && items[i].Todo? :: items[i].bank in flight
  }

  /** What one look at item k may do to it. */
  ghost predicate Looked(was: Item, now: Item, flight: Commands, ended: Commands) {
    match was
    case Issued(b, c) => now == if b in ended then Done(b, c) else was
    case Todo(b) => now == Spared(b) || (now == was && b in flight)
    case _ => now == was
  }

  /** Looking keeps what is known. The completion that the thread sees is that of its own command. */
  lemma LookKeeps(items: seq<Item>, banks: nat, flight: Commands, ended: Commands, ran: set<nat>, k: nat, now: Item)
    requires ItemsOk(items, banks, flight, ended, ran, k) && k < |items| && Looked(items[k], now, flight, ended)
    requires forall b | b in ended :: ended[b] in ran
    ensures ItemsOk(items[k := now], banks, flight, ended, ran, k + 1)
  {
    var items', k' := items[k := now], k + 1;
    forall i: nat ensures ItemOk(items', banks, flight, ended, ran, k', i) {
      assert ItemOk(items, banks, flight, ended, ran, k, i);
    }
    forall i: nat, j: nat ensures InOrder(items', i, j) {
      assert InOrder(items, i, j);
    }
  }

  /** A command is issued for item k, on an idle bank. */
  lemma IssueKeeps(items: seq<Item>, banks: nat, flight: Commands, ended: Commands, ran: set<nat>, k: nat, cmd: nat)
    requires ItemsOk(items, banks, flight, ended, ran, k) && k < |items| && items[k].Todo? && items[k].bank !in flight
    requires Tried(items, flight, k)
    ensures ItemsOk(items[k := Issued(items[k].bank, cmd)], banks, flight[items[k].bank := cmd], ended, ran, k + 1)
  {
    var b, k' := items[k].bank, k + 1;
    var items', flight' := items[k := Issued(b, cmd)], flight[b := cmd];
    forall i: nat ensures ItemOk(items', banks, flight', ended, ran, k', i) {
      assert ItemOk(items, banks, flight, ended, ran, k, i) && InOrder(items, k, i);
    }
    forall i: nat, j: nat ensures InOrder(items', i, j) {
      assert InOrder(items, i, j) && InOrder(items, k, j);
      assert j == k ==> ItemOk(items, banks, flight, ended, ran, k, i);
    }
  }

  /** A command on an idle bank is no concern of the other threads, even of one that has yet to see that bank
      complete. */
  lemma OthersUnharmed(items: seq<Item>, banks: nat, flight: Commands, ended: Commands, ran: set<nat>, k: nat, b: nat,
                       cmd: nat)
    requires ItemsOk(items, banks, flight, ended, ran, k) && b !in flight
    ensures ItemsOk(items, banks, flight[b := cmd], ended, ran, k)
  {
    var flight' := flight[b := cmd];
    forall i: nat ensures ItemOk(items, banks, flight', ended, ran, k, i) {
      assert ItemOk(items, banks, flight, ended, ran, k, i);
    }
  }

  /** A new pass: the banks in done have completed. All threads have looked in the last pass, so none misses it. */
  lemma PassKeeps(items: seq<Item>, banks: nat, flight: Commands, ended: Commands, ran: set<nat>, done: set<nat>)
    requires ItemsOk(items, banks, flight, ended, ran, |items|)
    ensures ItemsOk(items, banks, flight - done, flight - (flight.Keys - done), ran, 0)
  {
    var flight', ended' := flight - done, flight - (flight.Keys - done);
    forall i: nat ensures ItemOk(items, banks, flight', ended', ran, 0, i) {
      assert ItemOk(items, banks, flight, ended, ran, |items|, i);
    }
  }

  lemma FinishKeeps(items: seq<Item>, banks: nat, flight: Commands, ended: Commands, ran: set<nat>, k: nat, cmd: nat)
    requires ItemsOk(items, banks, flight, ended, ran, k)
    ensures ItemsOk(items, banks, flight, ended, ran + {cmd}, k)
  {
    var ran' := ran + {cmd};
    forall i: nat ensures ItemOk(items, banks, flight, ended, ran', k, i) {
      assert ItemOk(items, banks, flight, ended, ran, k, i);
    }
  }

  /** A sleeping thread that none of the signals wakes has nothing to see: none of its commands has completed. */
  lemma NothingToSee(items: seq<Item>, banks: nat, flight: Commands, ended: Commands, ran: set<nat>, wakeup: set<nat>)
    requires ItemsOk(items, banks, flight, ended, ran, 0) && Watched(items, wakeup, |items|) && wakeup !! ended.Keys
    ensures ItemsOk(items, banks, flight, ended, ran, |items|)
  {
    forall i: nat ensures ItemOk(items, banks, flight, ended, ran, |items|, i) {
      assert ItemOk(items, banks, flight, ended, ran, 0, i);
    }
  }

  /** Nothing is issued yet. */
  lemma AllToDo(items: seq<Item>, banks: nat, flight: Commands, ended: Commands, ran: set<nat>, k: nat)
    requires forall i | 0 <= i < |items| :: items[i].Todo? && items[i].bank < banks
    ensures ItemsOk(items, banks, flight, ended, ran, k)
  {
    forall i: nat ensures ItemOk(items, banks, flight, ended, ran, k, i) {
    }
  }

  lemma BanksExist(items: seq<Item>, banks: nat, flight: Commands, ended: Commands, ran: set<nat>, k: nat)
    requires ItemsOk(items, banks, flight, ended, ran, k)
    ensures forall i | 0 <= i < |items| :: items[i].bank < banks
  {
    forall i | 0 <= i < |items| ensures items[i].bank < banks {
      assert ItemOk(items, banks, flight, ended, ran, k, i);
    }
  }
}
