/** The FASTer FTL with a few small blocks, for runs that can be followed step by step. */
module FasterSmall {
  import opened FasterState
  import opened FasterIsol
  import opened FasterGc
  import opened FasterTurns
  import opened FasterWrite
  import opened FasterAfter
  import opened FasterDisk
  import opened FasterRuns

  /** Three pages to a block and one sector to a page; two data blocks, two log blocks, eight isolation blocks (which is
      the least number that the code can be compiled with) and one free block. */
  const SMALL: Geometry := Geometry(3, 1, 2, 2, 2, 8, 1, 13)

  const GOOD: seq<nat> := [0, 1, 2, 3, 4, 5, 6, 7, 8, 9, 10, 11, 12]

  function Isol(): seq<nat> { seq(8, b => 3 + b) }

  const X: Data := [0]               // all that is written

  const NO_NAMES: seq<Pg> := [NOWHERE, NOWHERE, NOWHERE]
  const NAMES: seq<Pg> := [Pg(0, 0), Pg(0, 2), NOWHERE]

  const EMPTY: seq<Cell> := [Erased, Erased, Erased]
  const ONE: seq<Cell> := [Page(X), Erased, Erased]
  const TWO: seq<Cell> := [Page(X), Page(X), Erased]
  const FULL: seq<Cell> := [Page(X), Page(X), Page(X)]

  lemma Blocks3()
    ensures EMPTY[0 := Page(X)] == ONE && ONE[1 := Page(X)] == TWO && TWO[2 := Page(X)] == FULL
    ensures seq(3, o => Erased) == EMPTY
  {
  }

  /** A block with two pages and their names. */
  function Named(c: Pg, d: Pg): (r: seq<Cell>)
    ensures r == TWO[2 := Names([c, d, NOWHERE])]
  {
    [Page(X), Page(X), Names([c, d, NOWHERE])]
  }

  function Write(d: Pg): Command { Put(d, 0, X) }

  /** The flash: block 2 and block 12 take turns as random log block and free block, and the isolation blocks are those
      from 3 to 10. */
  function Flash(x: seq<Cell>, blocks: seq<seq<Cell>>, sw: seq<Cell>, y: seq<Cell>): (r: seq<seq<Cell>>)
    requires |blocks| == 8
    ensures |r| == 13 && r[0] == r[1] == EMPTY && r[2] == x && r[11] == sw && r[12] == y
    ensures forall k {:trigger r[k]} | 3 <= k < 11 :: r[k] == blocks[k - 3]
  {
    [EMPTY, EMPTY, x] + blocks + [sw, y]
  }

  function NoBlocks(): seq<seq<Cell>> { seq(8, b => EMPTY) }

  /** After the format. */
  function First(): Moment {
    Moment(State([0, 1], [11, 12], Isol(), [2], {}, map[], {}, Flash(EMPTY, NoBlocks(), EMPTY, EMPTY), NONE, 0,
                 Pg(0, 2), 1, NO_NAMES, NOWHERE, NO_NAMES, 8, NOWHERE, NO_NAMES),
           NOWHERE, NONE, Pace(0, 0, 0, 0, false))
  }

  lemma FirstIs()
    ensures Start(SMALL, GOOD) == First()
  {
    var st := Start(SMALL, GOOD).st;
    assert seq(3, o => Erased) == EMPTY && seq(3, o => NOWHERE) == NO_NAMES;
    assert st.flash == First().st.flash;
    assert st.data == First().st.data && st.log == First().st.log && st.isol == First().st.isol;
    assert st.free == First().st.free;
  }

  lemma DataIs(now: Moment, d: Pg)
    ensures PutData(SMALL, now, Write(d)) == X
  {
  }

  // ---- the collection of the random log block -----------------------------------------------------------------------

  /** The random log block has been filled, and its names written. */
  function Filled(st: State, flash: seq<seq<Cell>>): State { st.(rwFree := 0, flash := flash) }

  /** The block is passed over: all its pages get their second chance. */
  function Chances(st: State, list: seq<Pg>): State {
    st.(rwList := list, sc := st.sc + {Pg(1, 0), Pg(1, 1), Pg(1, 2)}, cur := Pg(0, 2))
  }

  /** The block has both its pages, and none has had its second chance. */
  ghost predicate BothWarm(st: State, c: Pg, d: Pg) {
    && c != d && ValidIn(st, 1) == {c, d} && ColdIn(st, 1) == {} && Pg(1, 0) !in st.sc
    && SiftedNames(SMALL, st, 1) == [c, d, NOWHERE]
  }

  lemma WarmIsPassedOver(st: State, c: Pg, d: Pg)
    requires BothWarm(st, c, d)
    ensures IsPassedOver(SMALL, st, 1) && 1 in Unmarked(SMALL, st.sc)
    ensures PassedOver(SMALL, st, 1).(rwList := [c, d, NOWHERE]) == Chances(st, [c, d, NOWHERE])
  {
    assert NotMarked(SMALL, st.sc, 1) by {
      assert Pg(1, 0) !in st.sc;
    }
    assert PagesOf(SMALL, 1) == {Pg(1, 0), Pg(1, 1), Pg(1, 2)};
  }

  lemma PassesOver(st: State, c: Pg, d: Pg)
    requires Shape(SMALL, st) && BothWarm(st, c, d)
    ensures var next := Chances(st, [c, d, NOWHERE]);
      Shape(SMALL, next) && Freed(SMALL, st) == Freed(SMALL, next) && (CanFree(SMALL, st) <==> CanFree(SMALL, next))
  {
    WarmIsPassedOver(st, c, d);
    PassingOver(SMALL, st, Chances(st, [c, d, NOWHERE]));
    assert Collected(SMALL, st) == Chances(st, [c, d, NOWHERE]);
  }

  /** The block is collected: its two pages are looked at one after the other. */
  ghost predicate IsCollected(st: State, list: seq<Pg>, m1: Mid, m2: Mid, r: State) {
    && Shape(SMALL, st) && SiftedNames(SMALL, st, 1) == list && (list[0] != NOWHERE || list[1] != NOWHERE)
    && !IsPassedOver(SMALL, st, 1) && IsolRoom(SMALL, st, Migrants(SMALL, st, 1))
    && m1 == MigrateStep(SMALL, Mid(st.(rwList := list, free := []), 0), 1, st.free[0], 0)
    && m2 == MigrateStep(SMALL, m1, 1, st.free[0], 1)
    && r == AfterGc(SMALL, st.(rwList := list), m2.st, 1, m2.k)
  }

  lemma Collects(st: State, list: seq<Pg>, m1: Mid, m2: Mid, r: State)
    requires IsCollected(st, list, m1, m2, r)
    ensures CanFree(SMALL, st) && Freed(SMALL, st) == r
  {
    var s := st.(rwList := list);
    assert s.free[1..] == [] && ValidBefore(list, 0) == 0;
    assert ValidBefore(list, 1) == if list[0] != NOWHERE then 1 else 0;
    assert Migrated(SMALL, s.(free := []), 1, st.free[0], 0) == Mid(s.(free := []), 0);
    assert Migrated(SMALL, s.(free := []), 1, st.free[0], 1) == m1;
  }

  // ---- writes -------------------------------------------------------------------------------------------------------

  /** A page is assigned after a collection: st is the state in which the log block has been filled, and r that in which
      it has been collected. */
  lemma AssignAfter(was: State, st: State, r: State)
    requires Shape(SMALL, was) && was.cur == Pg(1, 1) && was.rwFree == 1 && st == Closed(SMALL, was).(rwFree := 0)
    requires Shape(SMALL, st) && CanFree(SMALL, st) && Freed(SMALL, st) == r
    ensures CanAssign(SMALL, was) && Assigned(SMALL, was) == Advanced(SMALL, r)
  {
    SameCanFree(SMALL, was, st);
  }

  /** What else changes in a write without a merge that is not counted. */
  function Paced(now: Moment, d: Pg, st: State, free: int): Moment {
    WithStream(SMALL, now, d).(st := st, pace := Tuned(SMALL, now.pace.(writes := now.pace.writes + 1), free))
  }

  /** A random write without a merge: s is the state in which its page has been assigned. */
  lemma RandomWrite(now: Moment, d: Pg, s: State, next: Moment)
    requires Shape(SMALL, now.st) && IsPage(SMALL, d) && KindOf(SMALL, now, d) == Random && CanAssign(SMALL, now.st)
    requires s == Assigned(SMALL, now.st) && 0 < s.cur.b && s.cur.o < 3 && s.swNext < 3
    requires s.isolFree == 8 || (now.st.cur == Pg(1, 1) && now.st.rwFree == 1)
    requires next.st == Written(SMALL, s, d, s.cur, X) && next == Paced(now, d, next.st, s.isolFree)
    ensures Leads(SMALL, now, Write(d), next)
  {
    DataIs(now, d);
    assert Stored(SMALL, now, d, X) == next.st;
  }

  /** A random write that collects: st is the state in which the random log block has been filled, list has the names of
      its valid pages, and r is the state after. */
  lemma CollectingWrite(now: Moment, d: Pg, st: State, list: seq<Pg>, m1: Mid, m2: Mid, r: State, next: Moment)
    requires Shape(SMALL, now.st) && IsPage(SMALL, d) && KindOf(SMALL, now, d) == Random && now.st.cur == Pg(1, 1)
    requires now.st.rwFree == 1 && st == Closed(SMALL, now.st).(rwFree := 0) && IsCollected(st, list, m1, m2, r)
    requires Shape(SMALL, r) && 0 < Advanced(SMALL, r).cur.b && Advanced(SMALL, r).cur.o < 3 && r.swNext < 3
    requires next.st == Written(SMALL, Advanced(SMALL, r), d, Advanced(SMALL, r).cur, X)
    requires next == Paced(now, d, next.st, r.isolFree)
    ensures Leads(SMALL, now, Write(d), next)
  {
    Collects(st, list, m1, m2, r);
    AssignAfter(now.st, st, r);
    RandomWrite(now, d, Advanced(SMALL, r), next);
  }

  /** The same when the log block is passed over first. */
  lemma PassingWrite(now: Moment, d: Pg, st: State, list: seq<Pg>, m1: Mid, m2: Mid, r: State, next: Moment)
    requires Shape(SMALL, now.st) && IsPage(SMALL, d) && KindOf(SMALL, now, d) == Random && now.st.cur == Pg(1, 1)
    requires now.st.rwFree == 1 && st == Closed(SMALL, now.st).(rwFree := 0) && Shape(SMALL, st)
    requires |list| == 3 && list[2] == NOWHERE && BothWarm(st, list[0], list[1])
    requires IsCollected(Chances(st, list), list, m1, m2, r)
    requires Shape(SMALL, r) && 0 < Advanced(SMALL, r).cur.b && Advanced(SMALL, r).cur.o < 3 && r.swNext < 3
    requires next.st == Written(SMALL, Advanced(SMALL, r), d, Advanced(SMALL, r).cur, X)
    requires next == Paced(now, d, next.st, r.isolFree)
    ensures Leads(SMALL, now, Write(d), next)
  {
    assert list == [list[0], list[1], NOWHERE];
    PassesOver(st, list[0], list[1]);
    Collects(Chances(st, list), list, m1, m2, r);
    AssignAfter(now.st, st, r);
    RandomWrite(now, d, Advanced(SMALL, r), next);
  }
}
