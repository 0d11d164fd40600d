/** The cooperative threads that read and write pages under the page lock, as interleaved steps. One pass of the
    scheduler gives each thread its turn in order of arrival; signals are cleared between passes. */
module LockProtocol {
  import opened Sectors
  import opened Sets
  import opened LockRules
  import opened LockTable

  const SUB_PAGES := 8                 // SUB_PAGES_PER_PAGE
  const SUB_SECTORS := 8               // SECTORS_PER_SUB_PAGE

  type SubPage = s: seq<Sector> | |s| == SUB_SECTORS witness seq(SUB_SECTORS, _ => ALL_ONES)

  function Blank(): SubPage { seq(SUB_SECTORS, _ => ALL_ONES) }

  /** The sectors that the write buffer holds of one sub-page. */
  type Part = p: seq<Option<Sector>> | |p| == SUB_SECTORS witness seq(SUB_SECTORS, _ => None)

  function Laid(base: SubPage, part: Part): SubPage {
    seq(SUB_SECTORS, i requires 0 <= i < SUB_SECTORS => if part[i].Some? then part[i].value else base[i])
  }

  /** What one writer writes: for each sub-page of the flash page, the lpn it belongs to and the buffered sectors. */
  datatype Job = Job(lpns: seq<Option<nat>>, parts: seq<Part>)

  predicate JobOk(job: Job) { |job.lpns| == SUB_PAGES && |job.parts| == SUB_PAGES }

  function LpnAt(job: Job, sp: nat): Option<nat> { if sp < |job.lpns| then job.lpns[sp] else None }

  function PartAt(job: Job, sp: nat): Part {
    if sp < |job.parts| then job.parts[sp] else seq(SUB_SECTORS, _ => None)
  }

  /** LOCK_PHASE not yet tried, asleep in it, past it, and past the unlock. */
  datatype Phase = Fresh | Waiting | Locked | Done

  /** A reader of one page, or a writer with its job, the vps it has captured and the sub-pages it has merged. */
  datatype Thread = Thread(
    arrival: nat,
    phase: Phase,
    writer: bool,
    wants: set<nat>,
    job: Job,
    captured: map<nat, nat>,
    merged: map<nat, SubPage>,
    reading: Reading)

  /** What a reader has looked up: the vp of each sub-page, and (for the record) what was in it then; and what it has
      read. */
  datatype Reading = Reading(vps: map<nat, nat>, was: map<nat, SubPage>, got: map<nat, SubPage>)

  datatype State = State(
    threads: map<Owner, Thread>,
    locks: Table,
    front: nat,                    // threads that arrived before this have had their turn in this pass
    next: nat,                     // the arrival number of the next thread
    signal: bool,                  // SIG_LOCK_RELEASED
    vps: map<(nat, nat), nat>,     // the page mapping table: (lpn, sub-page) to vp; absent when never written
    flash: map<nat, seq<SubPage>>) // vp to the sub-pages of that flash page

  function Asked(t: Thread): LockType { if t.writer then WRITE_LOCK else READ_LOCK }

  function Vp(vps: map<(nat, nat), nat>, l: nat, sp: nat): nat { if (l, sp) in vps then vps[(l, sp)] else 0 }

  function At(flash: map<nat, seq<SubPage>>, vp: nat, sp: nat): SubPage {
    if vp in flash && sp < |flash[vp]| then flash[vp][sp] else Blank()
  }

  /** The sub-page that the host would read. */
  function Content(s: State, l: nat, sp: nat): SubPage { At(s.flash, Vp(s.vps, l, sp), sp) }

  // ---- the steps ----------------------------------------------------------------------------------

  /** The thread whose turn it is: the first, by arrival, that has not had its turn in this pass. */
  ghost predicate IsNext(s: State, o: Owner) {
    && o in s.threads && s.front <= s.threads[o].arrival
    && forall p: Owner | p in s.threads && s.front <= s.threads[p].arrival ::
         s.threads[o].arrival <= s.threads[p].arrival
  }

  ghost predicate PassOver(s: State) {
    forall o: Owner | o in s.threads :: s.threads[o].arrival < s.front
  }

  /** schedule() starts again: all signals are cleared. */
  ghost predicate NextPass(s: State, r: State) {
    PassOver(s) && r == s.(front := 0, signal := false)
  }

  /** A new thread joins at the end of the list, before a pass gives anybody a turn. A reader wants one page. */
  ghost predicate Arrive(s: State, r: State, o: Owner, writer: bool, wants: set<nat>, job: Job) {
    && s.front == 0 && !s.signal && o !in s.threads && |wants| <= LOCKS_PER_OWNER && NULL_LPN !in wants
    && (!writer ==> |wants| == 1)
    && (writer ==> JobOk(job) && forall sp: nat | LpnAt(job, sp).Some? :: LpnAt(job, sp).value in wants)
    && r == s.(threads := s.threads[o := Thread(s.next, Fresh, writer, wants, job, map[], map[],
         Reading(map[], map[], map[]))], next := s.next + 1)
  }

  /** A sleeping thread is passed over when no lock has been released in this pass. */
  ghost predicate SleepOn(s: State, r: State, o: Owner) {
    && IsNext(s, o) && s.threads[o].phase == Waiting && !s.signal
    && r == s.(front := s.threads[o].arrival + 1)
  }

  /** The pages in some order, as a thread goes through them. */
  ghost predicate InOrder(ls: seq<nat>, pages: set<nat>) { forall l: nat :: l in ls <==> l in pages }

  /** LOCK_PHASE: the thread calls page_lock for every page it wants; unless all are granted it goes to sleep. */
  ghost predicate Asks(s: State, r: State, o: Owner, grants: map<nat, LockType>) {
    && IsNext(s, o)
    && (s.threads[o].phase == Fresh || (s.threads[o].phase == Waiting && s.signal))
    && (exists ls: seq<nat> ::
         InOrder(ls, s.threads[o].wants) && r.locks == Locking(s.locks, o, Asked(s.threads[o]), ls))
    && grants == (map l | l in s.threads[o].wants :: Strongest(HoldersOf(s.locks, l), o, Asked(s.threads[o])))
    && (var all := forall l <- s.threads[o].wants :: grants[l] == Asked(s.threads[o]);
        r == s.(locks := r.locks,
                threads := s.threads[o := s.threads[o].(phase := if all then Locked else Waiting)],
                front := if all then s.front else s.threads[o].arrival + 1))
  }

  /** The same, said of each page. */
  ghost predicate Attempt(s: State, r: State, o: Owner, grants: map<nat, LockType>) {
    && IsNext(s, o)
    && (s.threads[o].phase == Fresh || (s.threads[o].phase == Waiting && s.signal))
    && Granting(s.locks, r.locks, o, s.threads[o], grants)
    && (var all := forall l <- s.threads[o].wants :: grants[l] == Asked(s.threads[o]);
        r == s.(locks := r.locks,
                threads := s.threads[o := s.threads[o].(phase := if all then Locked else Waiting)],
                front := if all then s.front else s.threads[o].arrival + 1))
  }

  /** Each wanted page is locked as strongly as the other owners let it be. */
  ghost predicate Granting(t: Table, u: Table, o: Owner, thread: Thread, grants: map<nat, LockType>) {
    && grants.Keys == thread.wants
    && u.Keys == t.Keys + thread.wants
    && (forall l <- thread.wants :: IsStrongestGrant(HoldersOf(t, l), o, Asked(thread), grants[l]))
    && (forall l <- u :: u[l] == if l in thread.wants then Recorded(HoldersOf(t, l), o, grants[l]) else t[l])
  }

  /** A thread past LOCK_PHASE waits for the PMT, the flash or a bank. */
  ghost predicate Yield(s: State, r: State, o: Owner) {
    IsNext(s, o) && s.threads[o].phase in {Locked, Done} && r == s.(front := s.threads[o].arrival + 1)
  }

  /** PMT_LOAD_PHASE of a writer: it notes where the old copy of one sub-page is. */
  ghost predicate Capture(s: State, r: State, o: Owner, sp: nat) {
    && IsNext(s, o) && s.threads[o].phase == Locked && s.threads[o].writer
    && LpnAt(s.threads[o].job, sp).Some? && sp !in s.threads[o].captured
    && r == s.(threads := s.threads[o := s.threads[o].(captured :=
                 s.threads[o].captured[sp := Vp(s.vps, LpnAt(s.threads[o].job, sp).value, sp)])])
  }

  /** FLASH_READ_PHASE of a writer: the sectors missing from the buffer come from the old copy. */
  ghost predicate Merge(s: State, r: State, o: Owner, sp: nat) {
    && IsNext(s, o) && s.threads[o].phase == Locked && s.threads[o].writer
    && sp in s.threads[o].captured
    && r == s.(threads := s.threads[o := s.threads[o].(merged :=
                 s.threads[o].merged[sp := Laid(At(s.flash, s.threads[o].captured[sp], sp),
                                                   PartAt(s.threads[o].job, sp))])])
  }

  /** page_unlock is called for every page that o has. */
  ghost predicate Unlocks(t: Table, u: Table, o: Owner, pages: set<nat>) {
    exists ls: seq<nat> :: InOrder(ls, pages) && u == Unlocking(t, o, ls)
  }

  /** PMT_UPDATE_PHASE and FLASH_WRITE_PHASE: a new flash page takes the merged sub-pages, the mapping follows,
      and every page is unlocked as soon as the command is issued. */
  ghost predicate Publishes(s: State, r: State, o: Owner, vp: nat) {
    Rewrites(s, r, o, vp) && Unlocks(s.locks, r.locks, o, s.threads[o].wants)
  }

  ghost predicate Rewrites(s: State, r: State, o: Owner, vp: nat) {
    && IsNext(s, o) && s.threads[o].phase == Locked && s.threads[o].writer
    && vp != 0 && vp !in s.flash
    && (forall sp: nat | LpnAt(s.threads[o].job, sp).Some? :: sp in s.threads[o].merged)
    && r == s.(flash := s.flash[vp := NewPage(s.threads[o])],
               vps := Remapped(s.vps, s.threads[o].job, vp),
               locks := r.locks, signal := true,
               threads := s.threads[o := s.threads[o].(phase := Done)])
  }

  /** The same, said of each lock. */
  ghost predicate Commit(s: State, r: State, o: Owner, vp: nat) {
    Rewrites(s, r, o, vp) && Unlocked(s.locks, r.locks, o)
  }

  function NewPage(t: Thread): seq<SubPage> {
    seq(SUB_PAGES, sp requires 0 <= sp < SUB_PAGES => if sp in t.merged then t.merged[sp] else Blank())
  }

  function Remapped(vps: map<(nat, nat), nat>, job: Job, vp: nat): map<(nat, nat), nat> {
    vps + map sp: nat | sp < |job.lpns| && LpnAt(job, sp).Some? :: (LpnAt(job, sp).value, sp) := vp
  }

  /** PMT_LOAD_PHASE of a reader: it looks up where the sub-pages of its page l are, and unlocks the page at once. */
  ghost predicate LooksUp(s: State, r: State, o: Owner, l: nat) {
    Learns(s, r, o, l) && Unlocks(s.locks, r.locks, o, s.threads[o].wants)
  }

  ghost predicate Learns(s: State, r: State, o: Owner, l: nat) {
    && IsNext(s, o) && s.threads[o].phase == Locked && !s.threads[o].writer && l in s.threads[o].wants
    && r == s.(locks := r.locks, signal := true,
         threads := s.threads[o := s.threads[o].(phase := Done, reading := LookedUp(s, l))])
  }

  /** The same, said of each lock. */
  ghost predicate EndRead(s: State, r: State, o: Owner, l: nat) {
    Learns(s, r, o, l) && Unlocked(s.locks, r.locks, o)
  }

  function LookedUp(s: State, l: nat): Reading {
    Reading(map sp: nat | sp < SUB_PAGES :: Vp(s.vps, l, sp), map sp: nat | sp < SUB_PAGES :: Content(s, l, sp), map[])
  }

  /** FLASH_READ_PHASE of a reader, any time later: the segment of all its sub-pages that are at vp. */
  ghost predicate Fetch(s: State, r: State, o: Owner, vp: nat) {
    && IsNext(s, o) && s.threads[o].phase == Done
    && r == s.(threads := s.threads[o := s.threads[o].(reading := Fetched(s.flash, s.threads[o].reading, vp))])
  }

  function Fetched(flash: map<nat, seq<SubPage>>, d: Reading, vp: nat): Reading {
    d.(got := d.got + map sp | sp in d.vps && d.vps[sp] == vp :: At(flash, vp, sp))
  }

  /** o has no lock left, and the others have theirs. */
  ghost predicate Unlocked(t: Table, u: Table, o: Owner) {
    && (forall l: nat, p: Owner :: Held(u, l, p) == if p == o then NULL_LOCK else Held(t, l, p))
    && TableOk(u)
  }

  /** BUFFER_PHASE was enough: the write buffer held all that a reader wants, or had room for what a writer brings. */
  ghost predicate Buffered(s: State, r: State, o: Owner) {
    && IsNext(s, o) && s.threads[o].phase == Fresh
    && r == s.(threads := s.threads[o := s.threads[o].(phase := Done)])
  }

  /** A stopped thread leaves the list. */
  ghost predicate Leave(s: State, r: State, o: Owner) {
    && IsNext(s, o) && s.threads[o].phase == Done
    && r == s.(threads := s.threads - {o}, front := s.threads[o].arrival + 1)
  }

  datatype Event =
    | NextPassE
    | ArriveE(newcomer: Owner, writer: bool, wants: set<nat>, job: Job)
    | SleepOnE(o: Owner)
    | AttemptE(o: Owner, grants: map<nat, LockType>)
    | YieldE(o: Owner)
    | CaptureE(o: Owner, sp: nat)
    | MergeE(o: Owner, sp: nat)
    | CommitE(o: Owner, vp: nat)
    | EndReadE(o: Owner, lpn: nat)
    | FetchE(o: Owner, vp: nat)
    | BufferedE(o: Owner)
    | LeaveE(o: Owner)

  ghost predicate Step(s: State, r: State, e: Event) {
    match e
    case NextPassE => NextPass(s, r)
    case ArriveE(o, writer, wants, job) => Arrive(s, r, o, writer, wants, job)
    case SleepOnE(o) => SleepOn(s, r, o)
    case AttemptE(o, grants) => Asks(s, r, o, grants)
    case YieldE(o) => Yield(s, r, o)
    case CaptureE(o, sp) => Capture(s, r, o, sp)
    case MergeE(o, sp) => Merge(s, r, o, sp)
    case CommitE(o, vp) => Publishes(s, r, o, vp)
    case EndReadE(o, l) => LooksUp(s, r, o, l)
    case FetchE(o, vp) => Fetch(s, r, o, vp)
    case BufferedE(o) => Buffered(s, r, o)
    case LeaveE(o) => Leave(s, r, o)
  }

  // ---- the invariant ------------------------------------------------------------------------------

  type Threads = map<Owner, Thread>

  /** k arrived before i. */
  predicate Before(ts: Threads, k: Owner, i: Owner) { k in ts && i in ts && ts[k].arrival < ts[i].arrival }

  predicate IsWaiting(ts: Threads, o: Owner) { o in ts && ts[o].phase == Waiting }

  ghost predicate ThreadsOk(ts: Threads, front: nat, next: nat) {
    && (forall o: Owner | o in ts :: ts[o].arrival < next && ThreadOk(ts[o]))
    && (forall o: Owner, p: Owner | o in ts && p in ts && o != p :: ts[o].arrival != ts[p].arrival)
    && (forall o: Owner, p: Owner | Before(ts, o, p) && ts[o].phase == Fresh :: ts[p].phase == Fresh)
    && (forall o: Owner | o in ts && ts[o].phase == Fresh :: front <= ts[o].arrival)
  }

  ghost predicate ThreadOk(t: Thread) {
    && |t.wants| <= LOCKS_PER_OWNER && NULL_LPN !in t.wants
    && (!t.writer ==> |t.wants| == 1)
    && (t.writer ==> JobOk(t.job) && forall sp: nat | LpnAt(t.job, sp).Some? :: LpnAt(t.job, sp).value in t.wants)
  }

  /** Locks are held only by threads in or past LOCK_PHASE, on pages they want; past it, all of them. */
  ghost predicate LocksOk(ts: Threads, locks: Table) {
    && TableOk(locks)
    && (forall l: nat, o: Owner | Held(locks, l, o) != NULL_LOCK :: MayHold(ts, locks, l, o))
    && (forall o: Owner, l: nat | o in ts && ts[o].phase == Locked && l in ts[o].wants ::
         Held(locks, l, o) == Asked(ts[o]))
  }

  ghost predicate MayHold(ts: Threads, locks: Table, l: nat, o: Owner) {
    && o in ts && l in ts[o].wants && (ts[o].phase == Locked || (ts[o].phase == Waiting && ts[o].writer))
    && Held(locks, l, o) <= Asked(ts[o]) && (ts[o].writer ==> Held(locks, l, o) >= INTENT_LOCK)
  }

  /** Nobody behind a sleeping thread holds any lock on a page it wants. */
  ghost predicate NobodyOvertakes(ts: Threads, locks: Table) {
    forall i: Owner, j: Owner, l: nat | IsWaiting(ts, i) && Before(ts, i, j) && l in ts[i].wants ::
      Held(locks, l, j) == NULL_LOCK
  }

  /** A thread ahead of i holds a lock on l that is incompatible with what i asks for. */
  ghost predicate BlockedOn(ts: Threads, locks: Table, i: Owner, l: nat)
    requires i in ts
  {
    exists k: Owner :: Before(ts, k, i) && !Compatible(Held(locks, l, k), Asked(ts[i]))
  }

  /** Page l is claimed for writing by i or by a thread ahead of it, so nobody behind i can get it. */
  ghost predicate Secured(ts: Threads, locks: Table, i: Owner, l: nat) {
    exists k: Owner :: (k == i || Before(ts, k, i)) && Held(locks, l, k) >= INTENT_LOCK
  }

  /** i sleeps for good reason. */
  ghost predicate Settled(ts: Threads, locks: Table, i: Owner)
    requires i in ts
  {
    && (exists l: nat :: l in ts[i].wants && BlockedOn(ts, locks, i, l))
    && (forall l: nat | l in ts[i].wants :: Secured(ts, locks, i, l))
  }

  /** Every sleeping thread is blocked, unless a lock was released in this pass and its turn is still to come. */
  ghost predicate NoLostWakeup(ts: Threads, locks: Table, front: nat, signal: bool) {
    forall i: Owner | IsWaiting(ts, i) && (ts[i].arrival < front || !signal) :: Settled(ts, locks, i)
  }

  /** What a writer has captured and merged is still the current content. */
  ghost predicate CapturesCurrent(ts: Threads, vps: map<(nat, nat), nat>, flash: map<nat, seq<SubPage>>) {
    && 0 !in flash
    && (forall l: nat, sp: nat :: Vp(vps, l, sp) == 0 || Vp(vps, l, sp) in flash)
    && (forall o: Owner, sp: nat | o in ts && sp in ts[o].captured :: CaptureOk(ts[o], vps, sp))
    && (forall o: Owner, sp: nat | o in ts && sp in ts[o].merged :: MergeOk(ts[o], flash, sp))
  }

  ghost predicate CaptureOk(t: Thread, vps: map<(nat, nat), nat>, sp: nat)
    requires sp in t.captured
  {
    && t.writer && t.phase in {Locked, Done} && LpnAt(t.job, sp).Some?
    && (t.phase == Locked ==> t.captured[sp] == Vp(vps, LpnAt(t.job, sp).value, sp))
  }

  ghost predicate MergeOk(t: Thread, flash: map<nat, seq<SubPage>>, sp: nat)
    requires sp in t.merged
  {
    && sp in t.captured && (t.captured[sp] == 0 || t.captured[sp] in flash)
    && t.merged[sp] == Laid(At(flash, t.captured[sp], sp), PartAt(t.job, sp))
  }

  /** Flash pages that a reader has looked up still hold what they held then, and it has read nothing else. */
  ghost predicate ReadsCurrent(ts: Threads, flash: map<nat, seq<SubPage>>) {
    forall o: Owner {:trigger ReadingOk(ts[o].reading, flash)} | o in ts :: ReadingOk(ts[o].reading, flash)
  }

  ghost predicate ReadingOk(d: Reading, flash: map<nat, seq<SubPage>>) {
    && d.was.Keys == d.vps.Keys
    && (forall sp {:trigger d.vps[sp]} | sp in d.vps ::
         (d.vps[sp] == 0 || d.vps[sp] in flash) && At(flash, d.vps[sp], sp) == d.was[sp])
    && (forall sp {:trigger d.got[sp]} | sp in d.got :: sp in d.was && d.got[sp] == d.was[sp])
  }

  ghost predicate Inv(s: State) {
    && ThreadsOk(s.threads, s.front, s.next)
    && LocksOk(s.threads, s.locks)
    && NobodyOvertakes(s.threads, s.locks)
    && NoLostWakeup(s.threads, s.locks, s.front, s.signal)
    && CapturesCurrent(s.threads, s.vps, s.flash)
    && ReadsCurrent(s.threads, s.flash)
  }

  ghost predicate Init(s: State) {
    s == State(map[], map[], 0, 0, false, map[], map[])
  }

  lemma UnlocksAll(ts: Threads, t: Table, u: Table, o: Owner)
    requires LocksOk(ts, t) && o in ts && Unlocks(t, u, o, ts[o].wants)
    ensures Unlocked(t, u, o)
  {
    var ls: seq<nat> :| InOrder(ls, ts[o].wants) && u == Unlocking(t, o, ls);
    UnlockingIs(t, o, ls);
    forall l: nat | l !in ls ensures Held(t, l, o) == NULL_LOCK {
      assert Held(t, l, o) != NULL_LOCK ==> MayHold(ts, t, l, o);
    }
  }

  lemma LocksEach(s: State, r: State, o: Owner, grants: map<nat, LockType>)
    requires TableOk(s.locks) && o in s.threads && NULL_LPN !in s.threads[o].wants && Asks(s, r, o, grants)
    ensures Attempt(s, r, o, grants)
  {
    var thread := s.threads[o];
    var ls: seq<nat> :| InOrder(ls, thread.wants) && r.locks == Locking(s.locks, o, Asked(thread), ls);
    LockingIs(s.locks, o, Asked(thread), ls);
    EachIsGranted(s.locks, r.locks, o, thread, ls, grants);
  }

  lemma EachIsGranted(t: Table, u: Table, o: Owner, thread: Thread, ls: seq<nat>, grants: map<nat, LockType>)
    requires LockedEach(t, u, o, Asked(thread), ls) && InOrder(ls, thread.wants)
    requires grants == map l | l in thread.wants :: Strongest(HoldersOf(t, l), o, Asked(thread))
    ensures Granting(t, u, o, thread, grants)
  {
    assert Elems(ls) == thread.wants;
  }

  /** Each step is the same said of each lock. */
  lemma StepSays(s: State, r: State, e: Event)
    requires ThreadsOk(s.threads, s.front, s.next) && LocksOk(s.threads, s.locks) && Step(s, r, e)
    ensures e.AttemptE? ==> Attempt(s, r, e.o, e.grants)
    ensures e.CommitE? ==> Commit(s, r, e.o, e.vp)
    ensures e.EndReadE? ==> EndRead(s, r, e.o, e.lpn)
  {
    match e
    case AttemptE(o, grants) => LocksEach(s, r, o, grants);
    case CommitE(o, vp) => UnlocksAll(s.threads, s.locks, r.locks, o);
    case EndReadE(o, l) => UnlocksAll(s.threads, s.locks, r.locks, o);
    case _ =>
  }

  lemma InitKeepsInv(s: State)
    requires Init(s)
    ensures Inv(s)
  {
    forall o: Owner ensures PagesOf(s.locks, o) == {} {}
  }

  /** No step changes a flash page that has been written, and other threads do not change what a reader knows. */
  lemma ReadsStay(ts: Threads, us: Threads, flash: map<nat, seq<SubPage>>, flash': map<nat, seq<SubPage>>)
    requires ReadsCurrent(ts, flash) && 0 !in flash'
    requires (forall vp | vp in flash :: vp in flash' && flash'[vp] == flash[vp])
    requires forall o: Owner | o in us ::
      if o in ts then us[o].reading == ts[o].reading else us[o].reading == Reading(map[], map[], map[])
    ensures ReadsCurrent(us, flash')
  {
    forall o: Owner | o in us ensures ReadingOk(us[o].reading, flash') {
      assert o in ts ==> ReadingOk(ts[o].reading, flash);
    }
  }

  // ---- every step keeps the invariant ---------------------------------------------------------------

  lemma NextPassKeepsInv(s: State, r: State)
    requires Inv(s) && NextPass(s, r)
    ensures Inv(r)
  {
    ReadsStay(s.threads, r.threads, s.flash, r.flash);
  }

  lemma SleepOnKeepsInv(s: State, r: State, o: Owner)
    requires Inv(s) && SleepOn(s, r, o)
    ensures Inv(r)
  {
    ReadsStay(s.threads, r.threads, s.flash, r.flash);
  }

  lemma YieldKeepsInv(s: State, r: State, o: Owner)
    requires Inv(s) && Yield(s, r, o)
    ensures Inv(r)
  {
    ReadsStay(s.threads, r.threads, s.flash, r.flash);
  }

  /** What i needs to stay settled: the threads ahead of it, and itself, have lost no lock. */
  ghost predicate NothingLost(ts: Threads, locks: Table, us: Threads, locks': Table, i: Owner) {
    && i in ts && i in us && us[i].wants == ts[i].wants && us[i].writer == ts[i].writer
    && (forall k: Owner, l: nat | (k == i || Before(ts, k, i)) && Held(locks, l, k) != NULL_LOCK ::
          (k == i || Before(us, k, i)) && Held(locks, l, k) <= Held(locks', l, k))
  }

  lemma StaysSettled(ts: Threads, locks: Table, us: Threads, locks': Table, i: Owner)
    requires NothingLost(ts, locks, us, locks', i) && Settled(ts, locks, i)
    ensures Settled(us, locks', i)
  {
    var l: nat :| l in ts[i].wants && BlockedOn(ts, locks, i, l);
    var k: Owner :| Before(ts, k, i) && !Compatible(Held(locks, l, k), Asked(ts[i]));
    assert Before(us, k, i) && !Compatible(Held(locks', l, k), Asked(us[i]));
    assert BlockedOn(us, locks', i, l);
    forall m: nat | m in us[i].wants ensures Secured(us, locks', i, m) {
      assert Secured(ts, locks, i, m);
      var q: Owner :| (q == i || Before(ts, q, i)) && Held(locks, m, q) >= INTENT_LOCK;
      assert (q == i || Before(us, q, i)) && Held(locks', m, q) >= INTENT_LOCK;
    }
  }

  /** us is ts with thread x changed in something other than its place in the queue and its wishes. */
  ghost predicate Changed(ts: Threads, us: Threads, x: Owner) {
    && x in ts && x in us && us == ts[x := us[x]]
    && us[x].arrival == ts[x].arrival && us[x].wants == ts[x].wants && us[x].writer == ts[x].writer
    && us[x].job == ts[x].job
  }

  lemma OrderStays(ts: Threads, us: Threads, x: Owner)
    requires Changed(ts, us, x)
    ensures forall k: Owner, i: Owner :: Before(us, k, i) == Before(ts, k, i)
  {
  }

  /** The thread whose turn it is may leave the phase Fresh: none is Fresh before it. */
  lemma ChangeKeepsThreads(ts: Threads, us: Threads, x: Owner, front: nat, front': nat, next: nat)
    requires ThreadsOk(ts, front, next) && Changed(ts, us, x) && front <= ts[x].arrival
    requires forall p: Owner | p in ts && front <= ts[p].arrival :: ts[x].arrival <= ts[p].arrival
    requires us[x].phase != Fresh && front' <= ts[x].arrival + 1
    ensures ThreadsOk(us, front', next)
  {
    OrderStays(ts, us, x);
    forall o: Owner, p: Owner | Before(us, o, p) && us[o].phase == Fresh ensures us[p].phase == Fresh {
      assert Before(ts, o, p);
    }
  }

  /** A change of what a thread has captured or merged is invisible to the locks and the sleepers. */
  ghost predicate SamePhase(ts: Threads, us: Threads, x: Owner) {
    Changed(ts, us, x) && us[x].phase == ts[x].phase
  }

  lemma SamePhaseKeepsLocks(ts: Threads, us: Threads, x: Owner, locks: Table)
    requires SamePhase(ts, us, x) && LocksOk(ts, locks)
    ensures LocksOk(us, locks)
  {
    forall l: nat, o: Owner | Held(locks, l, o) != NULL_LOCK ensures MayHold(us, locks, l, o) {
      assert MayHold(ts, locks, l, o);
    }
  }

  lemma SamePhaseKeepsOrder(ts: Threads, us: Threads, x: Owner, locks: Table)
    requires SamePhase(ts, us, x) && NobodyOvertakes(ts, locks)
    ensures NobodyOvertakes(us, locks)
  {
    OrderStays(ts, us, x);
    forall i: Owner, j: Owner, l: nat | IsWaiting(us, i) && Before(us, i, j) && l in us[i].wants
      ensures Held(locks, l, j) == NULL_LOCK
    {
      assert IsWaiting(ts, i) && Before(ts, i, j);
    }
  }

  lemma SamePhaseKeepsWakeups(ts: Threads, us: Threads, x: Owner, locks: Table, front: nat, signal: bool)
    requires SamePhase(ts, us, x) && NoLostWakeup(ts, locks, front, signal)
    ensures NoLostWakeup(us, locks, front, signal)
  {
    OrderStays(ts, us, x);
    forall i: Owner | IsWaiting(us, i) && (us[i].arrival < front || !signal) ensures Settled(us, locks, i) {
      assert IsWaiting(ts, i);
      StaysSettled(ts, locks, us, locks, i);
    }
  }

  lemma CaptureKeepsInv(s: State, r: State, o: Owner, sp: nat)
    requires Inv(s) && Capture(s, r, o, sp)
    ensures Inv(r)
  {
    ReadsStay(s.threads, r.threads, s.flash, r.flash);
    ChangeKeepsThreads(s.threads, r.threads, o, s.front, r.front, s.next);
    SamePhaseKeepsLocks(s.threads, r.threads, o, s.locks);
    SamePhaseKeepsOrder(s.threads, r.threads, o, s.locks);
    SamePhaseKeepsWakeups(s.threads, r.threads, o, s.locks, s.front, s.signal);
    CaptureKeepsCurrent(s, r, o, sp);
  }

  lemma CaptureKeepsCurrent(s: State, r: State, o: Owner, sp: nat)
    requires CapturesCurrent(s.threads, s.vps, s.flash) && Capture(s, r, o, sp)
    ensures CapturesCurrent(r.threads, r.vps, r.flash)
  {
    forall p: Owner, q: nat | p in r.threads && q in r.threads[p].captured ensures CaptureOk(r.threads[p], r.vps, q) {
      assert p != o || q != sp ==> CaptureOk(s.threads[p], s.vps, q);
    }
    forall p: Owner, q: nat | p in r.threads && q in r.threads[p].merged ensures MergeOk(r.threads[p], r.flash, q) {
      assert MergeOk(s.threads[p], s.flash, q);
    }
  }

  lemma MergeKeepsInv(s: State, r: State, o: Owner, sp: nat)
    requires Inv(s) && Merge(s, r, o, sp)
    ensures Inv(r)
  {
    ReadsStay(s.threads, r.threads, s.flash, r.flash);
    ChangeKeepsThreads(s.threads, r.threads, o, s.front, r.front, s.next);
    SamePhaseKeepsLocks(s.threads, r.threads, o, s.locks);
    SamePhaseKeepsOrder(s.threads, r.threads, o, s.locks);
    SamePhaseKeepsWakeups(s.threads, r.threads, o, s.locks, s.front, s.signal);
    MergeKeepsCurrent(s, r, o, sp);
  }

  lemma MergeKeepsCurrent(s: State, r: State, o: Owner, sp: nat)
    requires CapturesCurrent(s.threads, s.vps, s.flash) && Merge(s, r, o, sp)
    ensures CapturesCurrent(r.threads, r.vps, r.flash)
  {
    assert CaptureOk(s.threads[o], s.vps, sp);
    forall p: Owner, q: nat | p in r.threads && q in r.threads[p].captured ensures CaptureOk(r.threads[p], r.vps, q) {
      assert CaptureOk(s.threads[p], s.vps, q);
    }
    forall p: Owner, q: nat | p in r.threads && q in r.threads[p].merged ensures MergeOk(r.threads[p], r.flash, q) {
      assert p != o || q != sp ==> MergeOk(s.threads[p], s.flash, q);
    }
  }

  // Arrivals and departures.

  lemma ArriveKeepsLocks(s: State, r: State, o: Owner)
    requires LocksOk(s.threads, s.locks) && o !in s.threads && r.locks == s.locks
    requires o in r.threads && r.threads == s.threads[o := r.threads[o]] && r.threads[o].phase == Fresh
    ensures LocksOk(r.threads, r.locks)
    ensures forall l: nat :: Held(s.locks, l, o) == NULL_LOCK
  {
    forall l: nat ensures Held(s.locks, l, o) == NULL_LOCK {
      assert Held(s.locks, l, o) != NULL_LOCK ==> MayHold(s.threads, s.locks, l, o);
    }
    forall l: nat, p: Owner | Held(s.locks, l, p) != NULL_LOCK ensures MayHold(r.threads, s.locks, l, p) {
      assert MayHold(s.threads, s.locks, l, p);
    }
  }

  lemma ArriveKeepsWaits(s: State, r: State, o: Owner, writer: bool, wants: set<nat>, job: Job)
    requires Inv(s) && Arrive(s, r, o, writer, wants, job) && forall l: nat :: Held(s.locks, l, o) == NULL_LOCK
    ensures NobodyOvertakes(r.threads, r.locks) && NoLostWakeup(r.threads, r.locks, r.front, r.signal)
  {
    var ts, us := s.threads, r.threads;
    forall i: Owner, j: Owner, l: nat | IsWaiting(us, i) && Before(us, i, j) && l in us[i].wants
      ensures Held(s.locks, l, j) == NULL_LOCK
    {
      assert j != o ==> IsWaiting(ts, i) && Before(ts, i, j);
    }
    forall i: Owner | IsWaiting(us, i) ensures Settled(us, s.locks, i) {
      ArriveKeepsSettled(ts, us, o, s.locks, i);
    }
  }

  lemma ArriveKeepsSettled(ts: Threads, us: Threads, o: Owner, locks: Table, i: Owner)
    requires o !in ts && o in us && us == ts[o := us[o]] && i in ts && Settled(ts, locks, i)
    ensures Settled(us, locks, i)
  {
    assert forall k: Owner :: Before(ts, k, i) ==> Before(us, k, i);
    StaysSettled(ts, locks, us, locks, i);
  }

  lemma ArriveKeepsInv(s: State, r: State, o: Owner, writer: bool, wants: set<nat>, job: Job)
    requires Inv(s) && Arrive(s, r, o, writer, wants, job)
    ensures Inv(r)
  {
    ReadsStay(s.threads, r.threads, s.flash, r.flash);
    ArriveKeepsLocks(s, r, o);
    ArriveKeepsWaits(s, r, o, writer, wants, job);
    ArriveKeepsCurrent(s, r, o, writer, wants, job);
    ArriveKeepsThreads(s, r, o, writer, wants, job);
  }

  lemma ArriveKeepsThreads(s: State, r: State, o: Owner, writer: bool, wants: set<nat>, job: Job)
    requires ThreadsOk(s.threads, s.front, s.next) && Arrive(s, r, o, writer, wants, job)
    ensures ThreadsOk(r.threads, r.front, r.next)
  {
    forall p: Owner, q: Owner | Before(r.threads, p, q) && r.threads[p].phase == Fresh
      ensures r.threads[q].phase == Fresh
    {
      assert q != o ==> Before(s.threads, p, q);
    }
  }

  lemma ArriveKeepsCurrent(s: State, r: State, o: Owner, writer: bool, wants: set<nat>, job: Job)
    requires CapturesCurrent(s.threads, s.vps, s.flash) && Arrive(s, r, o, writer, wants, job)
    ensures CapturesCurrent(r.threads, r.vps, r.flash)
  {
    forall p: Owner, q: nat | p in r.threads && q in r.threads[p].captured ensures CaptureOk(r.threads[p], r.vps, q) {
      assert CaptureOk(s.threads[p], s.vps, q);
    }
    forall p: Owner, q: nat | p in r.threads && q in r.threads[p].merged ensures MergeOk(r.threads[p], r.flash, q) {
      assert MergeOk(s.threads[p], s.flash, q);
    }
  }

  lemma LeaveKeepsInv(s: State, r: State, o: Owner)
    requires Inv(s) && Leave(s, r, o)
    ensures Inv(r)
  {
    LeaveKeepsThreads(s.threads, o, s.front, s.next);
    LeaveKeepsLocks(s.threads, o, s.locks);
    LeaveKeepsOrder(s.threads, o, s.locks);
    LeaveKeepsWakeups(s.threads, o, s.locks, s.front, s.next, s.signal);
    LeaveKeepsCurrent(s, r, o);
    ReadsStay(s.threads, r.threads, s.flash, r.flash);
  }

  lemma LeaveKeepsThreads(ts: Threads, o: Owner, front: nat, next: nat)
    requires ThreadsOk(ts, front, next) && o in ts && front <= ts[o].arrival
    requires forall p: Owner | p in ts && front <= ts[p].arrival :: ts[o].arrival <= ts[p].arrival
    ensures ThreadsOk(ts - {o}, ts[o].arrival + 1, next)
  {
    var us := ts - {o};
    forall p: Owner, q: Owner | Before(us, p, q) && us[p].phase == Fresh ensures us[q].phase == Fresh {
      assert Before(ts, p, q);
    }
  }

  /** A thread that has given up its locks is in nobody's way. */
  lemma LeaveKeepsLocks(ts: Threads, o: Owner, locks: Table)
    requires LocksOk(ts, locks) && o in ts && ts[o].phase == Done
    ensures LocksOk(ts - {o}, locks)
  {
    forall l: nat, p: Owner | Held(locks, l, p) != NULL_LOCK ensures MayHold(ts - {o}, locks, l, p) {
      assert MayHold(ts, locks, l, p);
    }
  }

  lemma LeaveKeepsOrder(ts: Threads, o: Owner, locks: Table)
    requires NobodyOvertakes(ts, locks) && o in ts
    ensures NobodyOvertakes(ts - {o}, locks)
  {
    var us := ts - {o};
    forall i: Owner, j: Owner, l: nat | IsWaiting(us, i) && Before(us, i, j) && l in us[i].wants
      ensures Held(locks, l, j) == NULL_LOCK
    {
      assert IsWaiting(ts, i) && Before(ts, i, j);
    }
  }

  lemma LeaveKeepsWakeups(ts: Threads, o: Owner, locks: Table, front: nat, next: nat, signal: bool)
    requires NoLostWakeup(ts, locks, front, signal) && LocksOk(ts, locks) && ThreadsOk(ts, front, next)
    requires o in ts && ts[o].phase == Done && front <= ts[o].arrival
    requires forall p: Owner | p in ts && front <= ts[p].arrival :: ts[o].arrival <= ts[p].arrival
    ensures NoLostWakeup(ts - {o}, locks, ts[o].arrival + 1, signal)
  {
    var us := ts - {o};
    forall i: Owner | IsWaiting(us, i) && (us[i].arrival < ts[o].arrival + 1 || !signal) ensures Settled(us, locks, i) {
      assert IsWaiting(ts, i) && ts[i].arrival != ts[o].arrival;
      LeaveKeepsHolders(ts, o, locks, i);
      StaysSettled(ts, locks, us, locks, i);
    }
  }

  lemma LeaveKeepsHolders(ts: Threads, o: Owner, locks: Table, i: Owner)
    requires LocksOk(ts, locks) && o in ts && ts[o].phase == Done && i in ts && i != o
    ensures NothingLost(ts, locks, ts - {o}, locks, i)
  {
    var us := ts - {o};
    forall k: Owner, l: nat | (k == i || Before(ts, k, i)) && Held(locks, l, k) != NULL_LOCK
      ensures k == i || Before(us, k, i)
    {
      assert MayHold(ts, locks, l, k);
    }
  }

  lemma LeaveKeepsCurrent(s: State, r: State, o: Owner)
    requires CapturesCurrent(s.threads, s.vps, s.flash) && Leave(s, r, o)
    ensures CapturesCurrent(r.threads, r.vps, r.flash)
  {
    forall p: Owner, q: nat | p in r.threads && q in r.threads[p].captured ensures CaptureOk(r.threads[p], r.vps, q) {
      assert CaptureOk(s.threads[p], s.vps, q);
    }
    forall p: Owner, q: nat | p in r.threads && q in r.threads[p].merged ensures MergeOk(r.threads[p], r.flash, q) {
      assert MergeOk(s.threads[p], s.flash, q);
    }
  }

  lemma BufferedKeepsInv(s: State, r: State, o: Owner)
    requires Inv(s) && Buffered(s, r, o)
    ensures Inv(r)
  {
    ChangeKeepsThreads(s.threads, r.threads, o, s.front, r.front, s.next);
    BufferedKeepsLocks(s.threads, r.threads, o, s.locks);
    BufferedKeepsOrder(s.threads, r.threads, o, s.locks);
    BufferedKeepsWakeups(s.threads, r.threads, o, s.locks, s.front, s.signal);
    BufferedKeepsCurrent(s, r, o);
    ReadsStay(s.threads, r.threads, s.flash, r.flash);
  }

  /** A thread that has not asked for a lock yet does not need any. */
  ghost predicate NeedsNone(ts: Threads, us: Threads, o: Owner) {
    Changed(ts, us, o) && ts[o].phase == Fresh && us[o].phase == Done
  }

  lemma BufferedKeepsLocks(ts: Threads, us: Threads, o: Owner, locks: Table)
    requires NeedsNone(ts, us, o) && LocksOk(ts, locks)
    ensures LocksOk(us, locks)
  {
    forall l: nat, p: Owner | Held(locks, l, p) != NULL_LOCK ensures MayHold(us, locks, l, p) {
      assert MayHold(ts, locks, l, p);
    }
  }

  lemma BufferedKeepsOrder(ts: Threads, us: Threads, o: Owner, locks: Table)
    requires NeedsNone(ts, us, o) && NobodyOvertakes(ts, locks)
    ensures NobodyOvertakes(us, locks)
  {
    OrderStays(ts, us, o);
    forall i: Owner, j: Owner, l: nat | IsWaiting(us, i) && Before(us, i, j) && l in us[i].wants
      ensures Held(locks, l, j) == NULL_LOCK
    {
      assert IsWaiting(ts, i) && Before(ts, i, j);
    }
  }

  lemma BufferedKeepsWakeups(ts: Threads, us: Threads, o: Owner, locks: Table, front: nat, signal: bool)
    requires NeedsNone(ts, us, o) && NoLostWakeup(ts, locks, front, signal)
    ensures NoLostWakeup(us, locks, front, signal)
  {
    OrderStays(ts, us, o);
    forall i: Owner | IsWaiting(us, i) && (us[i].arrival < front || !signal) ensures Settled(us, locks, i) {
      assert IsWaiting(ts, i);
      StaysSettled(ts, locks, us, locks, i);
    }
  }

  lemma BufferedKeepsCurrent(s: State, r: State, o: Owner)
    requires CapturesCurrent(s.threads, s.vps, s.flash) && Buffered(s, r, o)
    ensures CapturesCurrent(r.threads, r.vps, r.flash)
  {
    forall p: Owner, q: nat | p in r.threads && q in r.threads[p].captured ensures CaptureOk(r.threads[p], r.vps, q) {
      assert CaptureOk(s.threads[p], s.vps, q);
    }
    forall p: Owner, q: nat | p in r.threads && q in r.threads[p].merged ensures MergeOk(r.threads[p], r.flash, q) {
      assert MergeOk(s.threads[p], s.flash, q);
    }
  }

  // Releases: a reader that ends, a writer that commits.

  /** Thread o gives up all its locks and goes on to phase Done. */
  ghost predicate GaveUp(s: State, r: State, o: Owner) {
    && IsNext(s, o) && s.threads[o].phase == Locked && Unlocked(s.locks, r.locks, o)
    && Changed(s.threads, r.threads, o) && r.threads[o].phase == Done
    && r.front == s.front && r.next == s.next && r.signal
  }

  lemma ReleaseKeepsLocks(s: State, r: State, o: Owner)
    requires LocksOk(s.threads, s.locks) && GaveUp(s, r, o)
    ensures LocksOk(r.threads, r.locks)
  {
    forall l: nat, p: Owner | Held(r.locks, l, p) != NULL_LOCK ensures MayHold(r.threads, r.locks, l, p) {
      assert MayHold(s.threads, s.locks, l, p);
    }
  }

  lemma ReleaseKeepsOrder(s: State, r: State, o: Owner)
    requires NobodyOvertakes(s.threads, s.locks) && GaveUp(s, r, o)
    ensures NobodyOvertakes(r.threads, r.locks)
  {
    OrderStays(s.threads, r.threads, o);
    forall i: Owner, j: Owner, l: nat | IsWaiting(r.threads, i) && Before(r.threads, i, j) && l in r.threads[i].wants
      ensures Held(r.locks, l, j) == NULL_LOCK
    {
      assert IsWaiting(s.threads, i) && Before(s.threads, i, j);
    }
  }

  /** Only threads whose turn is still to come lose a blocker, and the signal will wake them in this very pass. */
  lemma ReleaseKeepsWakeups(s: State, r: State, o: Owner)
    requires NoLostWakeup(s.threads, s.locks, s.front, s.signal) && GaveUp(s, r, o)
    ensures NoLostWakeup(r.threads, r.locks, r.front, r.signal)
  {
    OrderStays(s.threads, r.threads, o);
    forall i: Owner | IsWaiting(r.threads, i) && r.threads[i].arrival < r.front ensures Settled(r.threads, r.locks, i) {
      assert IsWaiting(s.threads, i) && !Before(s.threads, o, i);
      StaysSettled(s.threads, s.locks, r.threads, r.locks, i);
    }
  }

  lemma EndReadKeepsInv(s: State, r: State, o: Owner, l: nat)
    requires Inv(s) && EndRead(s, r, o, l)
    ensures Inv(r)
  {
    assert GaveUp(s, r, o);
    ChangeKeepsThreads(s.threads, r.threads, o, s.front, r.front, s.next);
    ReleaseKeepsLocks(s, r, o);
    ReleaseKeepsOrder(s, r, o);
    ReleaseKeepsWakeups(s, r, o);
    EndReadKeepsCurrent(s, r, o, l);
    EndReadKeepsReads(s, r, o, l);
  }

  lemma EndReadKeepsReads(s: State, r: State, o: Owner, l: nat)
    requires CapturesCurrent(s.threads, s.vps, s.flash) && ReadsCurrent(s.threads, s.flash) && EndRead(s, r, o, l)
    ensures ReadsCurrent(r.threads, r.flash)
  {
    forall p: Owner | p in r.threads ensures ReadingOk(r.threads[p].reading, r.flash) {
      if p != o {
        assert ReadingOk(s.threads[p].reading, s.flash);
      }
    }
  }

  lemma FetchKeepsInv(s: State, r: State, o: Owner, vp: nat)
    requires Inv(s) && Fetch(s, r, o, vp)
    ensures Inv(r)
  {
    ChangeKeepsThreads(s.threads, r.threads, o, s.front, r.front, s.next);
    SamePhaseKeepsLocks(s.threads, r.threads, o, s.locks);
    SamePhaseKeepsOrder(s.threads, r.threads, o, s.locks);
    SamePhaseKeepsWakeups(s.threads, r.threads, o, s.locks, s.front, s.signal);
    FetchKeepsCurrent(s, r, o, vp);
  }

  lemma FetchKeepsCurrent(s: State, r: State, o: Owner, vp: nat)
    requires CapturesCurrent(s.threads, s.vps, s.flash) && ReadsCurrent(s.threads, s.flash) && Fetch(s, r, o, vp)
    ensures CapturesCurrent(r.threads, r.vps, r.flash) && ReadsCurrent(r.threads, r.flash)
  {
    forall p: Owner, q: nat | p in r.threads && q in r.threads[p].captured ensures CaptureOk(r.threads[p], r.vps, q) {
      assert CaptureOk(s.threads[p], s.vps, q);
    }
    forall p: Owner, q: nat | p in r.threads && q in r.threads[p].merged ensures MergeOk(r.threads[p], r.flash, q) {
      assert MergeOk(s.threads[p], s.flash, q);
    }
    forall p: Owner | p in r.threads ensures ReadingOk(r.threads[p].reading, r.flash) {
      assert ReadingOk(s.threads[p].reading, s.flash);
    }
  }

  lemma EndReadKeepsCurrent(s: State, r: State, o: Owner, l: nat)
    requires CapturesCurrent(s.threads, s.vps, s.flash) && EndRead(s, r, o, l)
    ensures CapturesCurrent(r.threads, r.vps, r.flash)
  {
    forall p: Owner, q: nat | p in r.threads && q in r.threads[p].captured ensures CaptureOk(r.threads[p], r.vps, q) {
      assert CaptureOk(s.threads[p], s.vps, q);
    }
    forall p: Owner, q: nat | p in r.threads && q in r.threads[p].merged ensures MergeOk(r.threads[p], r.flash, q) {
      assert MergeOk(s.threads[p], s.flash, q);
    }
  }

  /** Where a commit moves sub-pages: exactly those of its job. */
  lemma RemappedAt(vps: map<(nat, nat), nat>, job: Job, vp: nat, l: nat, sp: nat)
    ensures Vp(Remapped(vps, job, vp), l, sp) == if LpnAt(job, sp) == Some(l) then vp else Vp(vps, l, sp)
  {
  }

  /** Two threads past LOCK_PHASE, one of them a writer, want no page in common. */
  lemma WritersAreAlone(s: State, o: Owner, p: Owner, l: nat)
    requires LocksOk(s.threads, s.locks) && o in s.threads && p in s.threads && o != p
    requires s.threads[o].phase == Locked && s.threads[p].phase == Locked && s.threads[o].writer
    requires l in s.threads[o].wants
    ensures l !in s.threads[p].wants
  {
    assert Held(s.locks, l, o) == WRITE_LOCK;
    assert ExclusivePair(HoldersOf(s.locks, l)[o], HoldersOf(s.locks, l)[p]);
    assert Held(s.locks, l, p) == NULL_LOCK;
  }

  lemma CommitKeepsCapture(s: State, r: State, o: Owner, vp: nat, p: Owner, q: nat)
    requires LocksOk(s.threads, s.locks) && ThreadsOk(s.threads, s.front, s.next) && Commit(s, r, o, vp)
    requires p in s.threads && q in s.threads[p].captured && CaptureOk(s.threads[p], s.vps, q)
    ensures CaptureOk(r.threads[p], r.vps, q)
  {
    if p != o && s.threads[p].phase == Locked {
      var l := LpnAt(s.threads[p].job, q).value;
      RemappedAt(s.vps, s.threads[o].job, vp, l, q);
      if l in s.threads[o].wants {
        WritersAreAlone(s, o, p, l);
      }
    }
  }

  lemma CommitKeepsVps(s: State, r: State, o: Owner, vp: nat, l: nat, sp: nat)
    requires Commit(s, r, o, vp) && (Vp(s.vps, l, sp) == 0 || Vp(s.vps, l, sp) in s.flash)
    ensures Vp(r.vps, l, sp) == 0 || Vp(r.vps, l, sp) in r.flash
  {
    RemappedAt(s.vps, s.threads[o].job, vp, l, sp);
  }

  /** A new flash page changes nothing about the pages that are there. */
  lemma MergeStays(t: Thread, u: Thread, flash: map<nat, seq<SubPage>>, vp: nat, page: seq<SubPage>, q: nat)
    requires q in t.merged && MergeOk(t, flash, q) && 0 !in flash && vp !in flash && vp != 0
    requires u.merged == t.merged && u.captured == t.captured && u.job == t.job
    ensures MergeOk(u, flash[vp := page], q)
  {
    assert At(flash[vp := page], t.captured[q], q) == At(flash, t.captured[q], q);
  }

  lemma CommitKeepsMerged(s: State, r: State, o: Owner, vp: nat, p: Owner, q: nat)
    requires Commit(s, r, o, vp) && 0 !in s.flash && p in s.threads && q in s.threads[p].merged
    requires MergeOk(s.threads[p], s.flash, q)
    ensures MergeOk(r.threads[p], r.flash, q)
  {
    MergeStays(s.threads[p], r.threads[p], s.flash, vp, NewPage(s.threads[o]), q);
  }

  lemma CommitKeepsAllCaptured(s: State, r: State, o: Owner, vp: nat)
    requires LocksOk(s.threads, s.locks) && ThreadsOk(s.threads, s.front, s.next) && Commit(s, r, o, vp)
    requires forall p: Owner, q: nat | p in s.threads && q in s.threads[p].captured :: CaptureOk(s.threads[p], s.vps, q)
    ensures forall p: Owner, q: nat | p in r.threads && q in r.threads[p].captured :: CaptureOk(r.threads[p], r.vps, q)
  {
    forall p: Owner, q: nat | p in r.threads && q in r.threads[p].captured ensures CaptureOk(r.threads[p], r.vps, q) {
      CommitKeepsCapture(s, r, o, vp, p, q);
    }
  }

  lemma CommitKeepsAllMerged(s: State, r: State, o: Owner, vp: nat)
    requires Commit(s, r, o, vp) && 0 !in s.flash
    requires forall p: Owner, q: nat | p in s.threads && q in s.threads[p].merged :: MergeOk(s.threads[p], s.flash, q)
    ensures forall p: Owner, q: nat | p in r.threads && q in r.threads[p].merged :: MergeOk(r.threads[p], r.flash, q)
  {
    forall p: Owner, q: nat | p in r.threads && q in r.threads[p].merged ensures MergeOk(r.threads[p], r.flash, q) {
      CommitKeepsMerged(s, r, o, vp, p, q);
    }
  }

  lemma CommitKeepsCurrent(s: State, r: State, o: Owner, vp: nat)
    requires LocksOk(s.threads, s.locks) && ThreadsOk(s.threads, s.front, s.next)
    requires CapturesCurrent(s.threads, s.vps, s.flash) && Commit(s, r, o, vp)
    ensures CapturesCurrent(r.threads, r.vps, r.flash)
  {
    CommitKeepsAllCaptured(s, r, o, vp);
    CommitKeepsAllMerged(s, r, o, vp);
    forall l: nat, sp: nat ensures Vp(r.vps, l, sp) == 0 || Vp(r.vps, l, sp) in r.flash {
      CommitKeepsVps(s, r, o, vp, l, sp);
    }
  }

  lemma CommitGivesUp(s: State, r: State, o: Owner, vp: nat)
    requires Commit(s, r, o, vp)
    ensures GaveUp(s, r, o)
  {
  }

  lemma CommitKeepsReads(s: State, r: State, o: Owner, vp: nat)
    requires 0 !in s.flash && ReadsCurrent(s.threads, s.flash) && Commit(s, r, o, vp)
    ensures ReadsCurrent(r.threads, r.flash)
  {
    WriteKeepsReads(s.threads, r.threads, s.flash, o, vp, NewPage(s.threads[o]));
  }

  lemma WriteKeepsReads(ts: Threads, us: Threads, flash: map<nat, seq<SubPage>>, o: Owner, vp: nat, page: seq<SubPage>)
    requires 0 !in flash && vp != 0 && vp !in flash && ReadsCurrent(ts, flash)
    requires o in ts && o in us && us == ts[o := us[o]] && us[o].reading == ts[o].reading
    ensures ReadsCurrent(us, flash[vp := page])
  {
    ReadsStay(ts, us, flash, flash[vp := page]);
  }

  lemma CommitKeepsInv(s: State, r: State, o: Owner, vp: nat)
    requires Inv(s) && Commit(s, r, o, vp)
    ensures Inv(r)
  {
    CommitGivesUp(s, r, o, vp);
    ChangeKeepsThreads(s.threads, r.threads, o, s.front, r.front, s.next);
    ReleaseKeepsLocks(s, r, o);
    ReleaseKeepsOrder(s, r, o);
    ReleaseKeepsWakeups(s, r, o);
    CommitKeepsCurrent(s, r, o, vp);
    CommitKeepsReads(s, r, o, vp);
  }

  // LOCK_PHASE.

  /** The locks after o's requests: each wanted page's lock is raised to what was granted, no other lock changes. */
  ghost predicate Raised(t: Table, u: Table, o: Owner, wants: set<nat>, grants: map<nat, LockType>) {
    && grants.Keys == wants
    && forall l: nat, p: Owner ::
         Held(u, l, p) == if p == o && l in wants then Max(grants[l], Held(t, l, o)) else Held(t, l, p)
  }

  lemma GrantedHolders(t: Table, u: Table, o: Owner, thread: Thread, grants: map<nat, LockType>, l: nat)
    requires TableOk(t) && Granting(t, u, o, thread, grants) && l in thread.wants
    ensures u[l] == HoldersOf(t, l)[o := Max(grants[l], Held(t, l, o))] && Exclusive(u[l]) && u[l] != Nobody()
  {
    assert Exclusive(HoldersOf(t, l));
    GrantKeepsExclusive(HoldersOf(t, l), o, Asked(thread), grants[l]);
    GrantLeavesAnOwner(HoldersOf(t, l), o, Asked(thread), grants[l]);
  }

  lemma HeldAfter(t: Table, u: Table, o: Owner, thread: Thread, grants: map<nat, LockType>, l: nat, p: Owner)
    requires TableOk(t) && Granting(t, u, o, thread, grants)
    ensures Held(u, l, p) == if p == o && l in thread.wants then Max(grants[l], Held(t, l, o)) else Held(t, l, p)
  {
    if l in thread.wants {
      GrantedHolders(t, u, o, thread, grants, l);
    }
  }

  lemma GrantsRaise(t: Table, u: Table, o: Owner, thread: Thread, grants: map<nat, LockType>)
    requires TableOk(t) && Granting(t, u, o, thread, grants)
    ensures Raised(t, u, o, thread.wants, grants)
    ensures forall l <- u :: u[l] != Nobody() && Exclusive(u[l])
  {
    forall l: nat, p: Owner
      ensures Held(u, l, p) == if p == o && l in thread.wants then Max(grants[l], Held(t, l, o)) else Held(t, l, p)
    {
      HeldAfter(t, u, o, thread, grants, l, p);
    }
    forall l <- u ensures u[l] != Nobody() && Exclusive(u[l]) {
      if l in thread.wants {
        GrantedHolders(t, u, o, thread, grants, l);
      }
    }
  }

  lemma RaisedPages(t: Table, u: Table, o: Owner, wants: set<nat>, grants: map<nat, LockType>, p: Owner)
    requires Raised(t, u, o, wants, grants) && |wants| <= LOCKS_PER_OWNER && |PagesOf(t, p)| <= LOCKS_PER_OWNER
    requires PagesOf(t, o) <= wants
    ensures |PagesOf(u, p)| <= LOCKS_PER_OWNER
  {
    forall l <- PagesOf(u, p) ensures l in if p == o then wants else PagesOf(t, p) {
      assert Held(u, l, p) != NULL_LOCK;
    }
    SubsetSize(PagesOf(u, p), if p == o then wants else PagesOf(t, p));
  }

  lemma AttemptKeepsTable(ts: Threads, t: Table, u: Table, o: Owner, grants: map<nat, LockType>)
    requires LocksOk(ts, t) && o in ts && ThreadOk(ts[o]) && Granting(t, u, o, ts[o], grants)
    ensures TableOk(u)
  {
    GrantsRaise(t, u, o, ts[o], grants);
    forall l | l in PagesOf(t, o) ensures l in ts[o].wants {
      assert MayHold(ts, t, l, o);
    }
    forall p: Owner ensures |PagesOf(u, p)| <= LOCKS_PER_OWNER {
      RaisedPages(t, u, o, ts[o].wants, grants, p);
    }
  }

  /** A writer is granted write, intent or nothing; a reader read or nothing. What it is refused, another owner
      stands in the way of. */
  lemma GrantShape(hs: Holders, o: Owner, asked: LockType, grant: LockType)
    requires asked == WRITE_LOCK || asked == READ_LOCK
    requires IsStrongestGrant(hs, o, asked, grant) && hs[o] <= asked
    ensures asked == WRITE_LOCK ==> grant != READ_LOCK
    ensures grant <= asked
    ensures grant != asked ==> exists p: Owner :: p != o && !Compatible(hs[p], asked)
    ensures grant < INTENT_LOCK && grant != asked ==> exists p: Owner :: p != o && hs[p] >= INTENT_LOCK
  {
    if grant != asked {
      assert !CompatibleWithOthers(hs, o, asked);
      if grant < INTENT_LOCK {
        if asked == WRITE_LOCK {
          assert !CompatibleWithOthers(hs, o, INTENT_LOCK);
          var p: Owner :| p != o && !Compatible(hs[p], INTENT_LOCK);
          assert hs[p] >= INTENT_LOCK;
        } else {
          var p: Owner :| p != o && !Compatible(hs[p], asked);
          assert hs[p] >= INTENT_LOCK;
        }
      }
    }
  }

  /** Every grant is the strongest possible, and no more than the thread asks for. */
  ghost predicate Fair(t: Table, o: Owner, asked: LockType, wants: set<nat>, grants: map<nat, LockType>) {
    && grants.Keys == wants
    && forall l <- wants :: IsStrongestGrant(HoldersOf(t, l), o, asked, grants[l])
  }

  lemma AttemptHolder(ts: Threads, us: Threads, t: Table, u: Table, o: Owner, grants: map<nat, LockType>, l: nat,
                      p: Owner)
    requires Changed(ts, us, o) && ThreadOk(ts[o]) && Raised(t, u, o, ts[o].wants, grants)
    requires Fair(t, o, Asked(ts[o]), ts[o].wants, grants) && us[o].phase in {Waiting, Locked}
    requires !ts[o].writer && us[o].phase == Waiting ==> forall k <- ts[o].wants :: grants[k] != READ_LOCK
    requires ts[o].phase in {Fresh, Waiting} && (Held(t, l, p) != NULL_LOCK ==> MayHold(ts, t, l, p))
    requires Held(u, l, p) != NULL_LOCK
    ensures MayHold(us, u, l, p)
  {
    if p == o && l in ts[o].wants {
      GrantShape(HoldersOf(t, l), o, Asked(ts[o]), grants[l]);
    }
  }

  /** A reader wants one page, so if it is not granted everything it is granted nothing. */
  lemma ReaderGetsNothing(thread: Thread, o: Owner, t: Table, grants: map<nat, LockType>)
    requires ThreadOk(thread) && !thread.writer && grants.Keys == thread.wants
    requires exists l :: l in thread.wants && grants[l] != READ_LOCK
    ensures forall k <- thread.wants :: grants[k] != READ_LOCK
  {
    var l :| l in thread.wants && grants[l] != READ_LOCK;
    OnlyWish(thread.wants, l);
  }

  lemma AttemptKeepsHolders(ts: Threads, us: Threads, t: Table, u: Table, o: Owner, grants: map<nat, LockType>)
    requires LocksOk(ts, t) && Changed(ts, us, o) && ThreadOk(ts[o]) && Raised(t, u, o, ts[o].wants, grants)
    requires Fair(t, o, Asked(ts[o]), ts[o].wants, grants) && ts[o].phase in {Fresh, Waiting}
    requires us[o].phase == if forall l <- ts[o].wants :: grants[l] == Asked(ts[o]) then Locked else Waiting
    ensures forall l: nat, p: Owner | Held(u, l, p) != NULL_LOCK :: MayHold(us, u, l, p)
  {
    if !ts[o].writer && us[o].phase == Waiting {
      ReaderGetsNothing(ts[o], o, t, grants);
    }
    forall l: nat, p: Owner | Held(u, l, p) != NULL_LOCK ensures MayHold(us, u, l, p) {
      AttemptHolder(ts, us, t, u, o, grants, l, p);
    }
  }

  lemma AttemptKeepsLocked(ts: Threads, us: Threads, t: Table, u: Table, o: Owner, grants: map<nat, LockType>)
    requires LocksOk(ts, t) && Changed(ts, us, o) && Raised(t, u, o, ts[o].wants, grants)
    requires us[o].phase == if forall l <- ts[o].wants :: grants[l] == Asked(ts[o]) then Locked else Waiting
    ensures forall p: Owner, l: nat | p in us && us[p].phase == Locked && l in us[p].wants ::
      Held(u, l, p) == Asked(us[p])
  {
    forall l: nat ensures Held(t, l, o) <= Asked(ts[o]) {
      assert Held(t, l, o) != NULL_LOCK ==> MayHold(ts, t, l, o);
    }
  }

  lemma AttemptKeepsLocks(s: State, r: State, o: Owner, grants: map<nat, LockType>)
    requires ThreadsOk(s.threads, s.front, s.next) && LocksOk(s.threads, s.locks) && Attempt(s, r, o, grants)
    ensures LocksOk(r.threads, r.locks)
  {
    GrantsRaise(s.locks, r.locks, o, s.threads[o], grants);
    AttemptKeepsTable(s.threads, s.locks, r.locks, o, grants);
    AttemptKeepsHolders(s.threads, r.threads, s.locks, r.locks, o, grants);
    AttemptKeepsLocked(s.threads, r.threads, s.locks, r.locks, o, grants);
  }

  lemma OnlyWish(wants: set<nat>, l: nat)
    requires |wants| == 1 && l in wants
    ensures wants == {l}
  {
    assert |wants - {l}| == 0;
    assert wants == {l} + (wants - {l});
  }

  /** A sleeping thread ahead of the one whose turn it is has been settled in this pass. */
  lemma AheadIsSettled(s: State, o: Owner, i: Owner)
    requires ThreadsOk(s.threads, s.front, s.next) && NoLostWakeup(s.threads, s.locks, s.front, s.signal)
    requires IsNext(s, o)
    requires IsWaiting(s.threads, i) && Before(s.threads, i, o)
    ensures Settled(s.threads, s.locks, i)
  {
  }

  /** So the thread whose turn it is gets nothing that a sleeping thread ahead of it wants. */
  lemma AttemptRespectsSleepers(s: State, r: State, o: Owner, grants: map<nat, LockType>, i: Owner, l: nat)
    requires ThreadsOk(s.threads, s.front, s.next) && LocksOk(s.threads, s.locks) && NobodyOvertakes(s.threads, s.locks)
    requires NoLostWakeup(s.threads, s.locks, s.front, s.signal) && Attempt(s, r, o, grants)
    requires IsWaiting(s.threads, i) && Before(s.threads, i, o) && l in s.threads[i].wants && l in s.threads[o].wants
    ensures grants[l] == NULL_LOCK && Held(s.locks, l, o) == NULL_LOCK
  {
    AheadIsSettled(s, o, i);
    assert Secured(s.threads, s.locks, i, l);
    var k: Owner :| (k == i || Before(s.threads, k, i)) && Held(s.locks, l, k) >= INTENT_LOCK;
    assert Compatible(HoldersOf(s.locks, l)[k], grants[l]);
  }

  /** Threads behind the one whose turn it is hold nothing it wants. */
  lemma NobodyBehindHolds(s: State, o: Owner, j: Owner, l: nat)
    requires ThreadsOk(s.threads, s.front, s.next) && LocksOk(s.threads, s.locks) && NobodyOvertakes(s.threads, s.locks)
    requires o in s.threads && s.threads[o].phase in {Fresh, Waiting} && Before(s.threads, o, j)
    requires l in s.threads[o].wants
    ensures Held(s.locks, l, j) == NULL_LOCK
  {
    if s.threads[o].phase == Fresh {
      assert s.threads[j].phase == Fresh;
      assert Held(s.locks, l, j) != NULL_LOCK ==> MayHold(s.threads, s.locks, l, j);
    } else {
      assert IsWaiting(s.threads, o);
    }
  }

  lemma AttemptKeepsOrder(s: State, r: State, o: Owner, grants: map<nat, LockType>)
    requires Inv(s) && Attempt(s, r, o, grants)
    ensures NobodyOvertakes(r.threads, r.locks)
  {
    GrantsRaise(s.locks, r.locks, o, s.threads[o], grants);
    OrderStays(s.threads, r.threads, o);
    forall i: Owner, j: Owner, l: nat | IsWaiting(r.threads, i) && Before(r.threads, i, j) && l in r.threads[i].wants
      ensures Held(r.locks, l, j) == NULL_LOCK
    {
      assert Before(s.threads, i, j);
      if i == o {
        NobodyBehindHolds(s, o, j, l);
      } else {
        assert IsWaiting(s.threads, i);
        if j == o && l in s.threads[o].wants {
          AttemptRespectsSleepers(s, r, o, grants, i, l);
        }
      }
    }
  }

  /** A thread that could not get all it wanted is blocked by threads ahead of it, and nobody behind can overtake it. */
  lemma FailedAttemptIsSettled(s: State, r: State, o: Owner, grants: map<nat, LockType>)
    requires Inv(s) && Attempt(s, r, o, grants) && r.threads[o].phase == Waiting
    ensures Settled(r.threads, r.locks, o)
  {
    GrantsRaise(s.locks, r.locks, o, s.threads[o], grants);
    OrderStays(s.threads, r.threads, o);
    var asked := Asked(s.threads[o]);
    var l: nat :| l in s.threads[o].wants && grants[l] != asked;
    assert BlockedOn(r.threads, r.locks, o, l) by {
      AskedIsAbove(s, o, l);
      GrantShape(HoldersOf(s.locks, l), o, asked, grants[l]);
      var p: Owner :| p != o && !Compatible(HoldersOf(s.locks, l)[p], asked);
      HolderIsAhead(s, o, p, l);
      assert Before(r.threads, p, o) && !Compatible(Held(r.locks, l, p), Asked(r.threads[o]));
    }
    forall m: nat | m in r.threads[o].wants ensures Secured(r.threads, r.locks, o, m) {
      FailedAttemptSecures(s, r, o, grants, l, m);
    }
  }

  lemma AskedIsAbove(s: State, o: Owner, l: nat)
    requires LocksOk(s.threads, s.locks) && o in s.threads
    ensures Held(s.locks, l, o) <= Asked(s.threads[o])
  {
    assert Held(s.locks, l, o) != NULL_LOCK ==> MayHold(s.threads, s.locks, l, o);
  }

  /** Whoever else holds a page that the thread in LOCK_PHASE wants is ahead of it. */
  lemma HolderIsAhead(s: State, o: Owner, p: Owner, l: nat)
    requires ThreadsOk(s.threads, s.front, s.next) && LocksOk(s.threads, s.locks) && NobodyOvertakes(s.threads, s.locks)
    requires o in s.threads && s.threads[o].phase in {Fresh, Waiting} && l in s.threads[o].wants
    requires p != o && Held(s.locks, l, p) != NULL_LOCK
    ensures Before(s.threads, p, o)
  {
    assert MayHold(s.threads, s.locks, l, p);
    if Before(s.threads, o, p) {
      NobodyBehindHolds(s, o, p, l);
    }
  }

  lemma FailedAttemptSecures(s: State, r: State, o: Owner, grants: map<nat, LockType>, l: nat, m: nat)
    requires ThreadsOk(s.threads, s.front, s.next) && LocksOk(s.threads, s.locks) && NobodyOvertakes(s.threads, s.locks)
    requires o in s.threads && s.threads[o].phase in {Fresh, Waiting} && Changed(s.threads, r.threads, o)
    requires Raised(s.locks, r.locks, o, s.threads[o].wants, grants)
    requires Fair(s.locks, o, Asked(s.threads[o]), s.threads[o].wants, grants)
    requires l in s.threads[o].wants && grants[l] != Asked(s.threads[o]) && m in s.threads[o].wants
    ensures Secured(r.threads, r.locks, o, m)
  {
    AskedIsAbove(s, o, m);
    GrantShape(HoldersOf(s.locks, m), o, Asked(s.threads[o]), grants[m]);
    if grants[m] >= INTENT_LOCK {
      assert Held(r.locks, m, o) >= INTENT_LOCK;
    } else {
      if !s.threads[o].writer {
        OnlyWish(s.threads[o].wants, l);
      }
      var p: Owner :| p != o && HoldersOf(s.locks, m)[p] >= INTENT_LOCK;
      HolderIsAhead(s, o, p, m);
      OrderStays(s.threads, r.threads, o);
      assert Before(r.threads, p, o) && Held(r.locks, m, p) >= INTENT_LOCK;
    }
  }

  /** A thread that stays asleep loses nothing when another's locks are raised. */
  lemma RaisedKeepsSettled(ts: Threads, us: Threads, t: Table, u: Table, o: Owner, grants: map<nat, LockType>, i: Owner)
    requires Changed(ts, us, o) && Raised(t, u, o, ts[o].wants, grants) && i in ts && Settled(ts, t, i) && i != o
    ensures Settled(us, u, i)
  {
    OrderStays(ts, us, o);
    StaysSettled(ts, t, us, u, i);
  }

  lemma AttemptKeepsWakeups(s: State, r: State, o: Owner, grants: map<nat, LockType>)
    requires Inv(s) && Attempt(s, r, o, grants)
    ensures NoLostWakeup(r.threads, r.locks, r.front, r.signal)
  {
    GrantsRaise(s.locks, r.locks, o, s.threads[o], grants);
    forall i: Owner | IsWaiting(r.threads, i) && (r.threads[i].arrival < r.front || !r.signal)
      ensures Settled(r.threads, r.locks, i)
    {
      if i == o {
        FailedAttemptIsSettled(s, r, o, grants);
      } else {
        SettledBefore(s, r, o, grants, i);
        RaisedKeepsSettled(s.threads, r.threads, s.locks, r.locks, o, grants, i);
      }
    }
  }

  lemma SettledBefore(s: State, r: State, o: Owner, grants: map<nat, LockType>, i: Owner)
    requires ThreadsOk(s.threads, s.front, s.next) && NoLostWakeup(s.threads, s.locks, s.front, s.signal)
    requires Attempt(s, r, o, grants) && i != o && IsWaiting(r.threads, i)
    requires (r.threads[i].arrival < r.front || !r.signal)
    ensures i in s.threads && Settled(s.threads, s.locks, i)
  {
    assert IsWaiting(s.threads, i) && s.threads[i].arrival != s.threads[o].arrival;
    if s.threads[o].phase == Fresh {
      assert !Before(s.threads, o, i);
    }
  }

  lemma AttemptKeepsCurrent(s: State, r: State, o: Owner, grants: map<nat, LockType>)
    requires CapturesCurrent(s.threads, s.vps, s.flash) && Attempt(s, r, o, grants)
    ensures CapturesCurrent(r.threads, r.vps, r.flash)
  {
    forall p: Owner, q: nat | p in r.threads && q in r.threads[p].captured ensures CaptureOk(r.threads[p], r.vps, q) {
      assert CaptureOk(s.threads[p], s.vps, q);
    }
    forall p: Owner, q: nat | p in r.threads && q in r.threads[p].merged ensures MergeOk(r.threads[p], r.flash, q) {
      assert MergeOk(s.threads[p], s.flash, q);
    }
  }

  lemma AttemptKeepsInv(s: State, r: State, o: Owner, grants: map<nat, LockType>)
    requires Inv(s) && Attempt(s, r, o, grants)
    ensures Inv(r)
  {
    ReadsStay(s.threads, r.threads, s.flash, r.flash);
    ChangeKeepsThreads(s.threads, r.threads, o, s.front, r.front, s.next);
    AttemptKeepsLocks(s, r, o, grants);
    AttemptKeepsOrder(s, r, o, grants);
    AttemptKeepsWakeups(s, r, o, grants);
    AttemptKeepsCurrent(s, r, o, grants);
  }
}
