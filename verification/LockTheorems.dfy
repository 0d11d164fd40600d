/** What the locking protocol guarantees over every run, whatever the order in which the threads are served. */
module LockTheorems {
  import opened Sectors
  import opened LockRules
  import opened LockTable
  import opened LockProtocol

  lemma StepKeepsInv(s: State, r: State, e: Event)
    requires Inv(s) && Step(s, r, e)
    ensures Inv(r)
  {
    StepSays(s, r, e);
    match e
    case NextPassE => NextPassKeepsInv(s, r);
    case ArriveE(o, writer, wants, job) => ArriveKeepsInv(s, r, o, writer, wants, job);
    case SleepOnE(o) => SleepOnKeepsInv(s, r, o);
    case AttemptE(o, grants) => AttemptKeepsInv(s, r, o, grants);
    case YieldE(o) => YieldKeepsInv(s, r, o);
    case CaptureE(o, sp) => CaptureKeepsInv(s, r, o, sp);
    case MergeE(o, sp) => MergeKeepsInv(s, r, o, sp);
    case CommitE(o, vp) => CommitKeepsInv(s, r, o, vp);
    case EndReadE(o, l) => EndReadKeepsInv(s, r, o, l);
    case FetchE(o, vp) => FetchKeepsInv(s, r, o, vp);
    case BufferedE(o) => BufferedKeepsInv(s, r, o);
    case LeaveE(o) => LeaveKeepsInv(s, r, o);
  }

  /** A run from the empty state. */
  ghost predicate Run(states: seq<State>, events: seq<Event>) {
    && |states| == |events| + 1 && Init(states[0])
    && forall i: nat {:trigger StepAt(states, events, i)} | i < |events| :: StepAt(states, events, i)
  }

  ghost predicate StepAt(states: seq<State>, events: seq<Event>, i: nat) {
    i < |events| && i + 1 < |states| && Step(states[i], states[i + 1], events[i])
  }

  /** The invariant holds in every state of every run. */
  lemma {:induction false} RunKeepsInv(states: seq<State>, events: seq<Event>, n: nat)
    requires Run(states, events) && n <= |events|
    ensures Inv(states[n])
  {
    if n == 0 {
      InitKeepsInv(states[0]);
    } else {
      RunKeepsInv(states, events, n - 1);
      assert StepAt(states, events, n - 1);
      StepKeepsInv(states[n - 1], states[n], events[n - 1]);
    }
  }

  // ---- no lost wakeup, no deadlock ------------------------------------------------------------------

  /** i wants a page on which a thread that arrived before it holds a lock that excludes i's. */
  ghost predicate BlockedAhead(s: State, i: Owner) {
    exists k: Owner, l: nat :: InTheWay(s, k, i, l)
  }

  ghost predicate InTheWay(s: State, k: Owner, i: Owner, l: nat) {
    && Before(s.threads, k, i) && l in s.threads[i].wants && !Compatible(Held(s.locks, l, k), Asked(s.threads[i]))
  }

  /** When a pass ends, though all signals are about to be cleared, every thread still asleep in LOCK_PHASE is
      blocked by one that arrived before it: no release was missed. */
  lemma NoWakeupIsLost(states: seq<State>, events: seq<Event>, n: nat, i: Owner)
    requires Run(states, events) && n <= |events|
    requires PassOver(states[n]) && IsWaiting(states[n].threads, i)
    ensures BlockedAhead(states[n], i)
  {
    RunKeepsInv(states, events, n);
    var s := states[n];
    assert Settled(s.threads, s.locks, i);
    var l: nat :| l in s.threads[i].wants && BlockedOn(s.threads, s.locks, i, l);
    var k: Owner :| Before(s.threads, k, i) && !Compatible(Held(s.locks, l, k), Asked(s.threads[i]));
    assert InTheWay(s, k, i, l);
  }

  /** Waiting is well-founded: if anybody sleeps when a pass ends, then somebody sleeps on a lock of a thread that
      is past LOCK_PHASE and will release it. */
  lemma {:induction false} NoDeadlock(states: seq<State>, events: seq<Event>, n: nat, i: Owner)
    requires Run(states, events) && n <= |events|
    requires PassOver(states[n]) && IsWaiting(states[n].threads, i)
    ensures exists k: Owner, j: Owner, l: nat ::
              InTheWay(states[n], k, j, l) && IsWaiting(states[n].threads, j) && states[n].threads[k].phase == Locked
    decreases states[n].threads[i].arrival
  {
    var s := states[n];
    NoWakeupIsLost(states, events, n, i);
    RunKeepsInv(states, events, n);
    var k: Owner, l: nat :| InTheWay(s, k, i, l);
    assert MayHold(s.threads, s.locks, l, k);
    if s.threads[k].phase == Waiting {
      NoDeadlock(states, events, n, k);
    }
  }

  /** At its turn a thread gets all it wants exactly when no thread ahead of it is in the way. */
  lemma GrantedIffFree(s: State, r: State, o: Owner, grants: map<nat, LockType>)
    requires Inv(s) && Attempt(s, r, o, grants)
    ensures r.threads[o].phase == Locked <==> !BlockedAhead(s, o)
  {
    if r.threads[o].phase == Locked {
      forall k: Owner, l: nat ensures !InTheWay(s, k, o, l) {
        if l in s.threads[o].wants && k != o {
          assert Compatible(HoldersOf(s.locks, l)[k], grants[l]);
        }
      }
    } else {
      var l: nat :| l in s.threads[o].wants && grants[l] != Asked(s.threads[o]);
      AskedIsAbove(s, o, l);
      GrantShape(HoldersOf(s.locks, l), o, Asked(s.threads[o]), grants[l]);
      var p: Owner :| p != o && !Compatible(HoldersOf(s.locks, l)[p], Asked(s.threads[o]));
      HolderIsAhead(s, o, p, l);
      assert InTheWay(s, p, o, l);
    }
  }

  // ---- what is written --------------------------------------------------------------------------------

  /** The job of the thread that commits at this event, if it is a commit. */
  ghost function CommittedJob(s: State, e: Event): Option<Job> {
    if e.CommitE? && e.o in s.threads then Some(s.threads[e.o].job) else None
  }

  function WriteOver(base: SubPage, job: Option<Job>, l: nat, sp: nat): SubPage {
    if job.Some? && LpnAt(job.value, sp) == Some(l) then Laid(base, PartAt(job.value, sp)) else base
  }

  lemma CommitWrites(s: State, r: State, o: Owner, vp: nat, l: nat, sp: nat)
    requires ThreadsOk(s.threads, s.front, s.next) && CapturesCurrent(s.threads, s.vps, s.flash) && Commit(s, r, o, vp)
    ensures Content(r, l, sp) == WriteOver(Content(s, l, sp), Some(s.threads[o].job), l, sp)
  {
    if LpnAt(s.threads[o].job, sp) == Some(l) {
      CommitLays(s, r, o, vp, l, sp);
    } else {
      CommitLeaves(s, r, o, vp, l, sp);
    }
  }

  /** A sub-page of the job: the sectors that the writer fetched are still the page's. */
  lemma CommitLays(s: State, r: State, o: Owner, vp: nat, l: nat, sp: nat)
    requires ThreadsOk(s.threads, s.front, s.next) && CapturesCurrent(s.threads, s.vps, s.flash)
    requires Commit(s, r, o, vp) && LpnAt(s.threads[o].job, sp) == Some(l)
    ensures Content(r, l, sp) == WriteOver(Content(s, l, sp), Some(s.threads[o].job), l, sp)
  {
    var t := s.threads[o];
    RemappedAt(s.vps, t.job, vp, l, sp);
    assert sp in t.merged && MergeOk(t, s.flash, sp) && CaptureOk(t, s.vps, sp);
    CommitReads(s, r, o, vp, sp);
  }

  /** Any other sub-page. */
  lemma CommitLeaves(s: State, r: State, o: Owner, vp: nat, l: nat, sp: nat)
    requires ThreadsOk(s.threads, s.front, s.next) && CapturesCurrent(s.threads, s.vps, s.flash)
    requires Commit(s, r, o, vp) && LpnAt(s.threads[o].job, sp) != Some(l)
    ensures Content(r, l, sp) == WriteOver(Content(s, l, sp), Some(s.threads[o].job), l, sp)
  {
    RemappedAt(s.vps, s.threads[o].job, vp, l, sp);
    assert Vp(s.vps, l, sp) == 0 || Vp(s.vps, l, sp) in s.flash;
    FlashGrows(s.flash, vp, NewPage(s.threads[o]), Vp(s.vps, l, sp), sp);
  }

  /** The new flash page holds what has been merged. */
  lemma CommitReads(s: State, r: State, o: Owner, vp: nat, sp: nat)
    requires Commit(s, r, o, vp) && sp in s.threads[o].merged && sp < SUB_PAGES
    ensures At(r.flash, vp, sp) == s.threads[o].merged[sp]
  {
    assert NewPage(s.threads[o])[sp] == s.threads[o].merged[sp];
  }

  lemma FlashGrows(flash: map<nat, seq<SubPage>>, vp: nat, page: seq<SubPage>, at: nat, sp: nat)
    requires vp !in flash && vp != 0 && 0 !in flash && (at == 0 || at in flash)
    ensures At(flash[vp := page], at, sp) == At(flash, at, sp)
  {
  }

  /** Every step leaves what the host reads alone, except a commit: it lays the buffered sectors of its job over
      the content of that very moment, although the writer fetched the old sectors many steps earlier. */
  lemma StepWrites(s: State, r: State, e: Event, l: nat, sp: nat)
    requires Inv(s) && Step(s, r, e)
    ensures Content(r, l, sp) == WriteOver(Content(s, l, sp), CommittedJob(s, e), l, sp)
  {
    StepSays(s, r, e);
    if e.CommitE? {
      CommitWrites(s, r, e.o, e.vp, l, sp);
    }
  }

  /** The content of a sub-page after the jobs of the first n events are applied one after the other. */
  ghost function Serial(states: seq<State>, events: seq<Event>, n: nat, l: nat, sp: nat): SubPage
    requires n <= |events| < |states|
  {
    if n == 0 then Blank()
    else WriteOver(Serial(states, events, n - 1, l, sp), CommittedJob(states[n - 1], events[n - 1]), l, sp)
  }

  lemma InitIsBlank(s: State, l: nat, sp: nat)
    requires Init(s)
    ensures Content(s, l, sp) == Blank()
  {
  }

  lemma RunStepWrites(states: seq<State>, events: seq<Event>, n: nat, l: nat, sp: nat)
    requires Run(states, events) && n < |events|
    ensures Content(states[n + 1], l, sp) ==
      WriteOver(Content(states[n], l, sp), CommittedJob(states[n], events[n]), l, sp)
  {
    RunKeepsInv(states, events, n);
    assert StepAt(states, events, n);
    StepWrites(states[n], states[n + 1], events[n], l, sp);
  }

  /** Any interleaving reads like the commits applied one after the other to a blank disk. */
  lemma {:induction false} RunIsSerial(states: seq<State>, events: seq<Event>, n: nat, l: nat, sp: nat)
    requires Run(states, events) && n <= |events|
    ensures Content(states[n], l, sp) == Serial(states, events, n, l, sp)
  {
    if n == 0 {
      InitIsBlank(states[0], l, sp);
    } else {
      RunIsSerial(states, events, n - 1, l, sp);
      RunStepWrites(states, events, n - 1, l, sp);
    }
  }

  /** What the event writes to sector i of sub-page sp of page l, if it is the commit of a writer that has brought that
      sector. */
  function SectorOf(s: State, e: Event, l: nat, sp: nat, i: nat): Option<Sector>
    requires i < SUB_SECTORS
  {
    if e.CommitE? && e.o in s.threads && LpnAt(s.threads[e.o].job, sp) == Some(l) then PartAt(s.threads[e.o].job, sp)[i]
    else None
  }

  lemma StepWritesSector(states: seq<State>, events: seq<Event>, n: nat, l: nat, sp: nat, i: nat)
    requires Run(states, events) && n < |events| && i < SUB_SECTORS
    ensures var brought := SectorOf(states[n], events[n], l, sp, i);
      Content(states[n + 1], l, sp)[i] == if brought.Some? then brought.value else Content(states[n], l, sp)[i]
  {
    RunStepWrites(states, events, n, l, sp);
  }

  /** The host reads in each sector what the last writer that brought it has committed, sectors that were copied from an
      old page included. */
  lemma {:induction false} LastCommitWins(states: seq<State>, events: seq<Event>, m: nat, n: nat, l: nat, sp: nat,
                                          i: nat)
    requires Run(states, events) && m < n <= |events| && i < SUB_SECTORS
    requires SectorOf(states[m], events[m], l, sp, i).Some?
    requires forall k | m < k < n :: SectorOf(states[k], events[k], l, sp, i) == None
    ensures SectorOf(states[m], events[m], l, sp, i) == Some(Content(states[n], l, sp)[i])
    decreases n - m
  {
    StepWritesSector(states, events, n - 1, l, sp, i);
    if m < n - 1 {
      LastCommitWins(states, events, m, n - 1, l, sp, i);
    }
  }

  /** A sector that nobody has committed reads as all ones. */
  lemma {:induction false} NeverCommitted(states: seq<State>, events: seq<Event>, n: nat, l: nat, sp: nat, i: nat)
    requires Run(states, events) && n <= |events| && i < SUB_SECTORS
    requires forall k | 0 <= k < n :: SectorOf(states[k], events[k], l, sp, i) == None
    ensures Content(states[n], l, sp)[i] == ALL_ONES
  {
    if n == 0 {
      InitIsBlank(states[0], l, sp);
    } else {
      StepWritesSector(states, events, n - 1, l, sp, i);
      NeverCommitted(states, events, n - 1, l, sp, i);
    }
  }

  /** While a thread is past LOCK_PHASE, no other thread changes where its pages are. */
  lemma LockedPagesStay(s: State, r: State, e: Event, o: Owner, l: nat, sp: nat)
    requires Inv(s) && Step(s, r, e) && o in s.threads && s.threads[o].phase == Locked && l in s.threads[o].wants
    requires !(e.CommitE? && e.o == o)
    ensures Vp(r.vps, l, sp) == Vp(s.vps, l, sp)
  {
    if e.CommitE? {
      var job := s.threads[e.o].job;
      RemappedAt(s.vps, job, e.vp, l, sp);
      if LpnAt(job, sp) == Some(l) {
        WritersAreAlone(s, e.o, o, l);
      }
    }
  }

  // ---- the same thread at different times ----------------------------------------------------------------

  /** o is the owner number of the thread that arrived as number a. */
  ghost predicate IsThread(s: State, o: Owner, a: nat) { o in s.threads && s.threads[o].arrival == a }

  function Arrival(s: State, o: Owner): nat { if o in s.threads then s.threads[o].arrival else 0 }

  predicate Wants(s: State, o: Owner, l: nat) { o in s.threads && l in s.threads[o].wants }

  /** A thread that had arrived before a step was there, and wanted the same. */
  lemma WasThere(s: State, r: State, e: Event, o: Owner, a: nat)
    requires Step(s, r, e) && IsThread(r, o, a) && a < s.next
    ensures IsThread(s, o, a) && s.threads[o].wants == r.threads[o].wants && s.next <= r.next
  {
  }

  lemma {:induction false} NextGrows(states: seq<State>, events: seq<Event>, i: nat, j: nat)
    requires Run(states, events) && i <= j <= |events|
    ensures states[i].next <= states[j].next
  {
    if i == j {
    } else {
      NextGrows(states, events, i, j - 1);
      assert StepAt(states, events, j - 1);
    }
  }

  lemma {:induction false} WasThereAt(states: seq<State>, events: seq<Event>, i: nat, j: nat, o: Owner, a: nat)
    requires Run(states, events) && i <= j <= |events| && IsThread(states[j], o, a) && a < states[i].next
    ensures IsThread(states[i], o, a) && states[i].threads[o].wants == states[j].threads[o].wants
    decreases j - i
  {
    if i == j {
    } else {
      NextGrows(states, events, i, j - 1);
      assert StepAt(states, events, j - 1);
      WasThere(states[j - 1], states[j], events[j - 1], o, a);
      WasThereAt(states, events, i, j - 1, o, a);
    }
  }

  /** A thread that has given up its locks stays so, and what it has looked up stays. */
  lemma DoneStays(s: State, r: State, e: Event, o: Owner, a: nat)
    requires Step(s, r, e) && IsThread(s, o, a) && IsThread(r, o, a) && s.threads[o].phase == Done
    ensures StillDone(s, r, o)
  {
    match e
    case FetchE(p, vp) => assert r.threads[o] == s.threads[o] || o == p;
    case _ => assert r.threads[o] == s.threads[o];
  }

  lemma DoneStaysAt(states: seq<State>, events: seq<Event>, n: nat, o: Owner, a: nat)
    requires Run(states, events) && n < |events| && IsThread(states[n + 1], o, a) && a < states[n].next
    ensures IsThread(states[n], o, a)
    ensures states[n].threads[o].phase == Done ==> StillDone(states[n], states[n + 1], o)
  {
    assert StepAt(states, events, n);
    WasThere(states[n], states[n + 1], events[n], o, a);
    if states[n].threads[o].phase == Done {
      DoneStays(states[n], states[n + 1], events[n], o, a);
    }
  }

  ghost predicate StillDone(s: State, r: State, o: Owner) {
    o in s.threads && o in r.threads && r.threads[o].phase == Done
        && r.threads[o].reading.was == s.threads[o].reading.was
  }

  lemma {:induction false} RunDoneStays(states: seq<State>, events: seq<Event>, i: nat, j: nat, o: Owner, a: nat)
    requires Run(states, events) && i <= j <= |events| && IsThread(states[i], o, a) && IsThread(states[j], o, a)
    requires states[i].threads[o].phase == Done && a < states[i].next
    ensures StillDone(states[i], states[j], o)
    decreases j - i
  {
    if i == j {
    } else {
      NextGrows(states, events, i, j - 1);
      DoneStaysAt(states, events, j - 1, o, a);
      RunDoneStays(states, events, i, j - 1, o, a);
    }
  }

  // ---- what is read ------------------------------------------------------------------------------------------

  /** What a reader reads from flash, however long after it has given up the lock and whatever is written in between, is
      what was in its page at the moment of its lookup. */
  lemma ReaderReads(states: seq<State>, events: seq<Event>, i: nat, j: nat, o: Owner, l: nat, sp: nat)
    requires Run(states, events) && i < j <= |events| && events[i] == EndReadE(o, l)
    requires IsThread(states[j], o, Arrival(states[i], o)) && sp in states[j].threads[o].reading.got
    ensures states[j].threads[o].reading.got[sp] == Content(states[i], l, sp)
  {
    var a := Arrival(states[i], o);
    assert StepAt(states, events, i);
    RunKeepsInv(states, events, i + 1);
    RunDoneStays(states, events, i + 1, j, o, a);
    RunKeepsInv(states, events, j);
    assert ReadingOk(states[j].threads[o].reading, states[j].flash);
  }

  // ---- the order of the threads --------------------------------------------------------------------------------

  predicate IsWriter(s: State, o: Owner) { o in s.threads && s.threads[o].writer }

  /** When a thread has its locks, the threads ahead of it that want a page of its own have given up theirs, if either
      of the two is a writer. */
  lemma AheadIsDone(s: State, o: Owner, k: Owner, l: nat)
    requires Inv(s) && o in s.threads && s.threads[o].phase == Locked
    requires Before(s.threads, k, o) && Wants(s, k, l) && Wants(s, o, l) && (IsWriter(s, o) || IsWriter(s, k))
    ensures s.threads[k].phase == Done
  {
    assert Held(s.locks, l, o) == Asked(s.threads[o]);
    assert s.threads[k].phase == Waiting ==> IsWaiting(s.threads, k);
    if s.threads[k].phase == Locked {
      if IsWriter(s, o) {
        WritersAreAlone(s, o, k, l);
      } else {
        WritersAreAlone(s, k, o, l);
      }
    }
  }

  /** A commit or a lookup: the thread gives up its locks. */
  predicate Serves(e: Event) { e.CommitE? || e.EndReadE? }

  /** Commits of the same page, and lookups and commits of it, happen in the order in which their threads arrived. */
  lemma ServedInOrder(states: seq<State>, events: seq<Event>, i: nat, j: nat, l: nat)
    requires Run(states, events) && i < j < |events| && Serves(events[i]) && Serves(events[j])
    requires events[i].CommitE? || events[j].CommitE?
    requires Wants(states[i], events[i].o, l) && Wants(states[j], events[j].o, l)
    ensures Arrival(states[i], events[i].o) < Arrival(states[j], events[j].o)
  {
    var o, p := events[i].o, events[j].o;
    var a, b := Arrival(states[i], o), Arrival(states[j], p);
    RunKeepsInv(states, events, i);
    assert StepAt(states, events, i) && StepAt(states, events, j);
    if b <= a {
      WasThereAt(states, events, i, j, p, b);
      NotServedTwice(states, events, i, j, l);
      assert false;
    }
  }

  /** No thread is served when one that arrived later, or the same one, has been, if either of the two writes the
      page. */
  lemma NotServedTwice(states: seq<State>, events: seq<Event>, i: nat, j: nat, l: nat)
    requires Run(states, events) && i < j < |events| && Serves(events[i]) && Serves(events[j])
    requires events[i].CommitE? || events[j].CommitE?
    requires Wants(states[i], events[i].o, l) && Wants(states[i], events[j].o, l)
    requires IsThread(states[j], events[j].o, Arrival(states[i], events[j].o))
    ensures Arrival(states[i], events[i].o) < Arrival(states[i], events[j].o)
  {
    var o, p := events[i].o, events[j].o;
    var b := Arrival(states[i], p);
    RunKeepsInv(states, events, i);
    RunKeepsInv(states, events, i + 1);
    ServedWhenLocked(states, events, i);
    ServedWhenLocked(states, events, j);
    if b < Arrival(states[i], o) {
      WriterStays(states, events, i, j, p, b);
      AheadIsDone(states[i], o, p, l);
      RunDoneStays(states, events, i, j, p, b);
    } else if p == o {
      RunDoneStays(states, events, i + 1, j, o, b);
    }
  }

  lemma ServedWhenLocked(states: seq<State>, events: seq<Event>, i: nat)
    requires Run(states, events) && i < |events| && Serves(events[i])
    ensures var o := events[i].o;
      && o in states[i].threads && states[i].threads[o].phase == Locked
      && (IsWriter(states[i], o) <==> events[i].CommitE?)
      && IsThread(states[i + 1], o, Arrival(states[i], o)) && states[i + 1].threads[o].phase == Done
  {
    assert StepAt(states, events, i);
  }

  /** A writer is one as long as it is there. */
  lemma {:induction false} WriterStays(states: seq<State>, events: seq<Event>, i: nat, j: nat, o: Owner, a: nat)
    requires Run(states, events) && i <= j <= |events| && IsThread(states[j], o, a) && a < states[i].next
    ensures IsWriter(states[i], o) <==> IsWriter(states[j], o)
    decreases j - i
  {
    if i == j {
    } else {
      NextGrows(states, events, i, j - 1);
      assert StepAt(states, events, j - 1);
      WasThere(states[j - 1], states[j], events[j - 1], o, a);
      WriterStays(states, events, i, j - 1, o, a);
    }
  }

  // ---- reads and writes together -----------------------------------------------------------------------------

  /** The job of the event, if it is a commit by a thread that arrived before number a. */
  ghost function OlderJob(s: State, e: Event, a: nat): Option<Job> {
    if e.CommitE? && Arrival(s, e.o) < a then CommittedJob(s, e) else None
  }

  /** The content of a sub-page after those of the first n events are applied one after the other. */
  ghost function SerialBefore(states: seq<State>, events: seq<Event>, n: nat, a: nat, l: nat, sp: nat): SubPage
    requires n <= |events| < |states|
  {
    if n == 0 then Blank()
    else WriteOver(SerialBefore(states, events, n - 1, a, l, sp), OlderJob(states[n - 1], events[n - 1], a), l, sp)
  }

  /** A commit that writes to page l is by a thread that arrived before the reader exactly if it is before the
      lookup. */
  lemma OlderIsBefore(states: seq<State>, events: seq<Event>, i: nat, m: nat, o: Owner, l: nat, sp: nat)
    requires Run(states, events) && i < |events| && m < |events| && events[i] == EndReadE(o, l)
    ensures var job := CommittedJob(states[m], events[m]);
      job.Some? && LpnAt(job.value, sp) == Some(l) ==>
        (OlderJob(states[m], events[m], Arrival(states[i], o)) == if m < i then job else None)
  {
    var job := CommittedJob(states[m], events[m]);
    if job.Some? && LpnAt(job.value, sp) == Some(l) {
      RunKeepsInv(states, events, m);
      ServedWhenLocked(states, events, m);
      assert StepAt(states, events, i) && Wants(states[m], events[m].o, l) && Wants(states[i], o, l);
      if m < i {
        ServedInOrder(states, events, m, i, l);
      } else if i < m {
        ServedInOrder(states, events, i, m, l);
      }
    }
  }

  lemma {:induction false} SerialUpTo(states: seq<State>, events: seq<Event>, i: nat, n: nat, o: Owner, l: nat, sp: nat)
    requires Run(states, events) && i < |events| && n <= |events| && events[i] == EndReadE(o, l)
    ensures SerialBefore(states, events, n, Arrival(states[i], o), l, sp) ==
      Serial(states, events, if n < i then n else i, l, sp)
  {
    if n == 0 {
    } else {
      SerialUpTo(states, events, i, n - 1, o, l, sp);
      OlderIsBefore(states, events, i, n - 1, o, l, sp);
    }
  }

  /** A reader gets its page as the writers that arrived before it leave it, all of them and no others, whatever the
      threads do in the meantime and however much later anybody is served. */
  lemma ReadsInOrder(states: seq<State>, events: seq<Event>, i: nat, j: nat, o: Owner, l: nat, sp: nat)
    requires Run(states, events) && i < j <= |events| && events[i] == EndReadE(o, l)
    requires IsThread(states[j], o, Arrival(states[i], o)) && sp in states[j].threads[o].reading.got
    ensures states[j].threads[o].reading.got[sp] ==
      SerialBefore(states, events, |events|, Arrival(states[i], o), l, sp)
  {
    ReaderReads(states, events, i, j, o, l, sp);
    RunIsSerial(states, events, i, l, sp);
    SerialUpTo(states, events, i, |events|, o, l, sp);
  }

  /** The same as SectorOf, for threads that arrived before number a. */
  function OlderSector(s: State, e: Event, a: nat, l: nat, sp: nat, i: nat): Option<Sector>
    requires i < SUB_SECTORS
  {
    if e.CommitE? && Arrival(s, e.o) < a then SectorOf(s, e, l, sp, i) else None
  }

  lemma OlderSectorIsBefore(states: seq<State>, events: seq<Event>, i: nat, k: nat, o: Owner, l: nat, sp: nat, x: nat)
    requires Run(states, events) && i < |events| && k < |events| && events[i] == EndReadE(o, l) && x < SUB_SECTORS
    ensures OlderSector(states[k], events[k], Arrival(states[i], o), l, sp, x) ==
      if k < i then SectorOf(states[k], events[k], l, sp, x) else None
  {
    OlderIsBefore(states, events, i, k, o, l, sp);
  }

  /** A reader gets in each sector what the last writer that arrived before it and brought the sector has committed,
      whoever else commits, and however much later. */
  lemma ReaderGetsLast(states: seq<State>, events: seq<Event>, i: nat, j: nat, m: nat, o: Owner, l: nat, sp: nat,
                       x: nat)
    requires Run(states, events) && i < j <= |events| && events[i] == EndReadE(o, l) && x < SUB_SECTORS
    requires IsThread(states[j], o, Arrival(states[i], o)) && sp in states[j].threads[o].reading.got
    requires m < |events| && OlderSector(states[m], events[m], Arrival(states[i], o), l, sp, x).Some?
    requires forall k | m < k < |events| :: OlderSector(states[k], events[k], Arrival(states[i], o), l, sp, x) == None
    ensures SectorOf(states[m], events[m], l, sp, x) == Some(states[j].threads[o].reading.got[sp][x])
  {
    ReaderReads(states, events, i, j, o, l, sp);
    forall k | m <= k < i
      ensures OlderSector(states[k], events[k], Arrival(states[i], o), l, sp, x) ==
        SectorOf(states[k], events[k], l, sp, x)
    {
      OlderSectorIsBefore(states, events, i, k, o, l, sp, x);
    }
    OlderSectorIsBefore(states, events, i, m, o, l, sp, x);
    LastCommitWins(states, events, m, i, l, sp, x);
  }

  /** A sector that none of them has brought is all ones. */
  lemma ReaderGetsBlank(states: seq<State>, events: seq<Event>, i: nat, j: nat, o: Owner, l: nat, sp: nat, x: nat)
    requires Run(states, events) && i < j <= |events| && events[i] == EndReadE(o, l) && x < SUB_SECTORS
    requires IsThread(states[j], o, Arrival(states[i], o)) && sp in states[j].threads[o].reading.got
    requires forall k | 0 <= k < |events| :: OlderSector(states[k], events[k], Arrival(states[i], o), l, sp, x) == None
    ensures states[j].threads[o].reading.got[sp][x] == ALL_ONES
  {
    ReaderReads(states, events, i, j, o, l, sp);
    forall k | 0 <= k < i ensures SectorOf(states[k], events[k], l, sp, x) == None {
      OlderSectorIsBefore(states, events, i, k, o, l, sp, x);
    }
    NeverCommitted(states, events, i, l, sp, x);
  }
}
