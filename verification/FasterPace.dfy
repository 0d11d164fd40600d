/** When the FASTer FTL merges between writes, how the interval of these merges is adjusted, and when it takes a run of
    writes for a stream. */
module FasterPace {
  import opened FasterState
  import opened FasterSteps
  import opened FasterAfter
  import opened FasterDisk
  import opened FasterRuns

  /** The page has been stored, and nothing else has been done yet. */
  ghost function StoredBy(g: Geometry, now: Moment, c: Command): (r: State)
    requires Shape(g, now.st) && IsPage(g, c.d) && c.Put?
    ensures Shape(g, r)
  {
    Stored(g, now, c.d, PutData(g, now, c))
  }

  /** A write to the random log area for which no block is collected. */
  predicate IsPlain(g: Geometry, now: Moment, c: Command) {
    && c.Put? && KindOf(g, now, c.d) == Random && now.st.swNext < g.pages
    && !(now.st.cur.o + 2 == g.pages && now.st.rwFree == 1)
  }

  /** The isolation area and the victim page in it are as they were. */
  predicate SameIsolation(st: State, st': State) {
    && st'.isol == st.isol && st'.isolCur == st.isolCur && st'.isolList == st.isolList && st'.isolFree == st.isolFree
    && st'.vt == st.vt && st'.vtList == st.vtList
  }

  lemma PlainStores(g: Geometry, now: Moment, c: Command)
    requires Shape(g, now.st) && IsPage(g, c.d) && IsPlain(g, now, c)
    ensures SameIsolation(now.st, StoredBy(g, now, c))
  {
  }

  // ---- the merge by interval ----------------------------------------------------------------------------------------

  /** A plain write, while some isolation blocks are in use but not nearly all of them, with merge interval v. */
  ghost predicate PlainStep(g: Geometry, now: Moment, c: Command, next: Moment, v: nat) {
    && Leads(g, now, c, next) && IsPlain(g, now, c) && now.pace.interval == v
    && RESERVED < now.st.isolFree < g.isols - 1
  }

  lemma OneCounted(g: Geometry, now: Moment, c: Command, next: Moment, v: nat)
    requires PlainStep(g, now, c, next, v)
    ensures var stored := StoredBy(g, now, c);
      if now.pace.trigger + 1 < 2 * v then next.st == stored && next.pace.trigger == now.pace.trigger + 1
      else next.st == FullyMerged(g, stored) && next.pace.trigger == 0 && CanMerge(g, stored)
  {
    PlainStores(g, now, c);
  }

  /** The write has left the state as it was stored. */
  ghost predicate OnlyStores(g: Geometry, now: Moment, c: Command, next: Moment) {
    Shape(g, now.st) && c.Put? && IsPage(g, c.d) && next.st == StoredBy(g, now, c)
  }

  /** Fewer than twice the interval leave the isolation area as it is. */
  lemma {:induction false} CountsUp(g: Geometry, at: nat -> Moment, cs: nat -> Command, v: nat, n: nat)
    requires n < 2 * v && at(0).pace.trigger == 0
    requires forall k: nat | k < n :: PlainStep(g, at(k), cs(k), at(k + 1), v)
    ensures forall k: nat | k < n :: OnlyStores(g, at(k), cs(k), at(k + 1))
    ensures at(n).pace.trigger == n && SameIsolation(at(0).st, at(n).st)
  {
    if n == 0 {
    } else {
      CountsUp(g, at, cs, v, n - 1);
      assert PlainStep(g, at(n - 1), cs(n - 1), at(n), v);
      OneCounted(g, at(n - 1), cs(n - 1), at(n), v);
      PlainStores(g, at(n - 1), cs(n - 1));
    }
  }

  /** Of as many as twice the interval, each leaves the state as it has been stored, except that the last one is
      followed by a full merge, and the count begins again. */
  lemma MergesAtInterval(g: Geometry, at: nat -> Moment, cs: nat -> Command, v: nat)
    requires 0 < v && at(0).pace.trigger == 0
    requires forall k: nat | k < 2 * v :: PlainStep(g, at(k), cs(k), at(k + 1), v)
    ensures forall k: nat | k < 2 * v - 1 :: OnlyStores(g, at(k), cs(k), at(k + 1))
    ensures SameIsolation(at(0).st, at(2 * v - 1).st)
    ensures MergesAfter(g, at(2 * v - 1), cs(2 * v - 1), at(2 * v)) && at(2 * v).pace.trigger == 0
  {
    var n := 2 * v - 1;
    CountsUp(g, at, cs, v, n);
    assert PlainStep(g, at(n), cs(n), at(n + 1), v);
    OneCounted(g, at(n), cs(n), at(n + 1), v);
    PlainStores(g, at(n), cs(n));
    if Inv(g, StoredBy(g, at(n), cs(n))) {
      VictimMovesOn(g, StoredBy(g, at(n), cs(n)));
    }
  }

  /** After the write a full merge succeeds, and goes on to another victim page. */
  ghost predicate MergesAfter(g: Geometry, now: Moment, c: Command, next: Moment) {
    && Shape(g, now.st) && c.Put? && IsPage(g, c.d)
    && var stored := StoredBy(g, now, c);
       CanMerge(g, stored) && next.st == FullyMerged(g, stored) && (Inv(g, stored) ==> next.st.vt != now.st.vt)
  }

  /** A full merge goes on to another page. */
  lemma VictimMovesOn(g: Geometry, st: State)
    requires Inv(g, st) && CanMerge(g, st) && 1 < g.isols && 1 < g.pages
    ensures FullyMerged(g, st).vt != st.vt
  {
    FoundIsNamed(g, st);
  }

  /** All other writes: they count nothing, and a merge follows only if nearly all isolation blocks are in use. */
  lemma OthersCountNothing(g: Geometry, now: Moment, c: Command, next: Moment)
    requires Leads(g, now, c, next) && c.Put? && now.st.swNext < g.pages
    requires var free := StoredBy(g, now, c).isolFree; !IsPlain(g, now, c) || !(RESERVED < free < g.isols - 1)
    ensures next.pace.trigger == now.pace.trigger
    ensures next.st == if Forces(g, now, c) then FullyMerged(g, StoredBy(g, now, c)) else StoredBy(g, now, c)
  {
  }

  /** The write is plain, or one of a stream that does not fill the sequential log block; and nearly all isolation
      blocks are in use. */
  ghost predicate Forces(g: Geometry, now: Moment, c: Command)
    requires Shape(g, now.st) && IsPage(g, c.d)
  {
    && c.Put? && (IsPlain(g, now, c) || (KindOf(g, now, c.d) != Random && c.d.o + 1 < g.pages))
    && StoredBy(g, now, c).isolFree <= RESERVED
  }

  // ---- the interval -------------------------------------------------------------------------------------------------

  /** ADJ_PMERGE_PERIOD. */
  function Period(g: Geometry): nat { g.logs * g.pages / 8 }

  /** The interval was p's and becomes q's when some isolation blocks are in use. It becomes one longer if only one is.
      If more are, it becomes one shorter than its base, down to 1, exactly if a merge has been forced. A base below 2
      begins again first. */
  predicate Adjusted(g: Geometry, p: Pace, q: Pace, free: int, raised: bool) {
    var base := if p.base < 2 then g.pages / 4 else p.base;
    var less := if base > 1 then base - 1 else base;
    && q.writes == 0
    && if free == g.isols - 1 then q.interval == p.interval + 1 && q.base == base && q.raised == raised
       else if raised then q.interval == q.base == less && !q.raised
       else q.interval == p.interval && q.base == base && !q.raised
  }

  /** One write, which has forced a merge or not. */
  predicate Paces(g: Geometry, p: Pace, q: Pace, free: int, forced: bool, period: nat) {
    if p.writes + 1 < period || free >= g.isols
    then q.writes == p.writes + 1 && q.interval == p.interval && q.base == p.base && q.raised == (p.raised || forced)
    else Adjusted(g, p, q, free, p.raised || forced)
  }

  ghost predicate WriteStep(g: Geometry, now: Moment, c: Command, next: Moment, forced: bool) {
    Leads(g, now, c, next) && c.Put? && now.st.swNext < g.pages && (forced <==> Forces(g, now, c))
  }

  lemma StepPaces(g: Geometry, now: Moment, c: Command, next: Moment, forced: bool)
    requires WriteStep(g, now, c, next, forced)
    ensures Paces(g, now.pace, next.pace, next.st.isolFree, forced, Period(g))
  {
  }

  /** A merge has been forced before the first of n writes, and the interval not been shortened, or by one of them. */
  predicate IsRaised(first: Pace, forced: nat -> bool, n: nat) { first.raised || exists k: nat :: k < n && forced(k) }

  /** Nothing is adjusted before the period is over. */
  lemma {:induction false} BetweenTunings(g: Geometry, at: nat -> Pace, free: nat -> int, forced: nat -> bool, n: nat,
                                          period: nat)
    requires at(0).writes == 0 && n < period
    requires forall k: nat | k < n :: Paces(g, at(k), at(k + 1), free(k + 1), forced(k), period)
    ensures at(n).writes == n && at(n).interval == at(0).interval && at(n).base == at(0).base
    ensures at(n).raised <==> IsRaised(at(0), forced, n)
  {
    if n == 0 {
    } else {
      BetweenTunings(g, at, free, forced, n - 1, period);
      assert Paces(g, at(n - 1), at(n - 1 + 1), free(n - 1 + 1), forced(n - 1), period);
    }
  }

  lemma AtPeriod(g: Geometry, at: nat -> Pace, free: nat -> int, forced: nat -> bool, n: nat)
    requires at(0).writes == 0 && 0 < n && free(n) < g.isols
    requires forall k: nat | k < n :: Paces(g, at(k), at(k + 1), free(k + 1), forced(k), n)
    ensures Adjusted(g, at(0), at(n), free(n), IsRaised(at(0), forced, n))
  {
    BetweenTunings(g, at, free, forced, n - 1, n);
    assert Paces(g, at(n - 1), at(n - 1 + 1), free(n - 1 + 1), forced(n - 1), n);
  }

  /** At the end of a period with isolation blocks in use, the interval is adjusted, and only then. */
  lemma TunesAtPeriod(g: Geometry, at: nat -> Moment, cs: nat -> Command, forced: nat -> bool, n: nat)
    requires 0 < n == Period(g) && at(0).pace.writes == 0 && at(n).st.isolFree < g.isols
    requires forall k: nat | k < n :: WriteStep(g, at(k), cs(k), at(k + 1), forced(k))
    ensures Adjusted(g, at(0).pace, at(n).pace, at(n).st.isolFree, IsRaised(at(0).pace, forced, n))
    ensures forall k: nat | k < n :: at(k).pace.interval == at(0).pace.interval
  {
    var paces, free := (k: nat) => at(k).pace, (k: nat) => at(k).st.isolFree;
    forall k: nat | k < n ensures Paces(g, paces(k), paces(k + 1), free(k + 1), forced(k), n) {
      StepPaces(g, at(k), cs(k), at(k + 1), forced(k));
    }
    AtPeriod(g, paces, free, forced, n);
    forall k: nat | k < n ensures at(k).pace.interval == at(0).pace.interval {
      BetweenTunings(g, paces, free, forced, k, n);
    }
  }

  // ---- streams ------------------------------------------------------------------------------------------------------

  /** A write to a page that is not of the data block that has the sequential log block. */
  ghost predicate ElseStep(g: Geometry, now: Moment, c: Command, next: Moment) {
    Leads(g, now, c, next) && c.Put? && now.st.swLbn != c.d.b
  }

  /** The pages are in order, and the first one does not continue what was written before. */
  ghost predicate InOrder(g: Geometry, at: nat -> Moment, cs: nat -> Command, n: nat) {
    && (forall k: nat | k < n :: ElseStep(g, at(k), cs(k), at(k + 1)))
    && cs(0).d != NextPage(g, at(0).corrPage) && forall k: nat | 0 < k < n :: cs(k).d == NextPage(g, cs(k - 1).d)
  }

  lemma {:induction false} StreamGrows(g: Geometry, at: nat -> Moment, cs: nat -> Command, n: nat)
    requires 0 < n <= THRESHOLD + 1 && InOrder(g, at, cs, n)
    ensures at(n).corrPage == cs(n - 1).d && at(n).corrCount == n
    ensures KindOf(g, at(n - 1), cs(n - 1).d) == Random
  {
    assert ElseStep(g, at(n - 1), cs(n - 1), at(n));
    if n == 1 {
    } else {
      StreamGrows(g, at, cs, n - 1);
    }
  }

  /** Of the pages written in order, the first five go to the random log area; with the sixth a stream is detected. */
  lemma SixthIsDetected(g: Geometry, at: nat -> Moment, cs: nat -> Command)
    requires InOrder(g, at, cs, 6)
    ensures forall k: nat | k < 5 :: KindOf(g, at(k), cs(k).d) == Random
    ensures KindOf(g, at(5), cs(5).d) == Detect
  {
    forall k: nat | k < 5 ensures KindOf(g, at(k), cs(k).d) == Random {
      assert InOrder(g, at, cs, k + 1);
      StreamGrows(g, at, cs, k + 1);
    }
    assert InOrder(g, at, cs, 5);
    StreamGrows(g, at, cs, 5);
    assert ElseStep(g, at(5), cs(5), at(6));
  }
}
