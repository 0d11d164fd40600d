/** What each operation of the FASTer FTL makes of its tables and its flash, as functions of the state before. */
module FasterAfter {
  import opened FasterState
  import opened FasterMerge
  import opened FasterIsol
  import opened FasterGc
  import opened FasterTurns
  import opened FasterWrite
  import opened FasterSteps

  // ---- merges -------------------------------------------------------------------------------------------------------

  /** When the first n pages of data block lbn have been merged, they are not in the log area any more, except those
      before page m that have a newer copy outside the sequential log block. */
  function HashAfter(st: State, lbn: nat, n: nat, m: nat): map<Pg, Pg> {
    map d | d in st.hash && !IsMerged(st.hash[d], d, lbn, n, m) :: st.hash[d]
  }

  predicate IsMerged(e: Pg, d: Pg, lbn: nat, n: nat, m: nat) { d.b == lbn && d.o < n && (m <= d.o || e.b == 0) }

  /** The pages from m on have been copied to block t. */
  function BlockAfterMerge(g: Geometry, st: State, lbn: nat, t: nat, n: nat, m: nat): seq<Cell> {
    seq(g.pages, o requires 0 <= o =>
      if m <= o < n then Page(Resolve(g, st, Pg(lbn, o))) else CellAt(st.flash, t, o))
  }

  function FlashAfter(g: Geometry, st: State, lbn: nat, t: nat, n: nat, m: nat): seq<seq<Cell>> {
    if t < |st.flash| then st.flash[t := BlockAfterMerge(g, st, lbn, t, n, m)] else st.flash
  }

  lemma HashNext(st: State, lbn: nat, n: nat, m: nat)
    ensures HashAfter(st, lbn, 0, m) == st.hash
    ensures HashAfter(st, lbn, n + 1, m) ==
      if Pg(lbn, n) in st.hash && IsMerged(st.hash[Pg(lbn, n)], Pg(lbn, n), lbn, n + 1, m)
      then HashAfter(st, lbn, n, m) - {Pg(lbn, n)} else HashAfter(st, lbn, n, m)
  {
    forall d | d in st.hash && d != Pg(lbn, n)
      ensures IsMerged(st.hash[d], d, lbn, n + 1, m) <==> IsMerged(st.hash[d], d, lbn, n, m)
    {
      assert d == Pg(d.b, d.o);
    }
  }

  lemma FlashStarts(g: Geometry, st: State, lbn: nat, t: nat, n: nat, m: nat)
    requires t < |st.flash| && |st.flash[t]| == g.pages && n <= m
    ensures FlashAfter(g, st, lbn, t, n, m) == st.flash
  {
    assert BlockAfterMerge(g, st, lbn, t, n, m) == st.flash[t];
  }

  lemma FlashNext(g: Geometry, st: State, lbn: nat, t: nat, n: nat, m: nat)
    requires t < |st.flash| && m <= n < g.pages
    ensures FlashAfter(g, st, lbn, t, n + 1, m) ==
      Program(FlashAfter(g, st, lbn, t, n, m), t, n, Page(Resolve(g, st, Pg(lbn, n))))
  {
    assert BlockAfterMerge(g, st, lbn, t, n + 1, m) ==
           BlockAfterMerge(g, st, lbn, t, n, m)[n := Page(Resolve(g, st, Pg(lbn, n)))];
  }

  /** switch_merge and partial_merge. */
  ghost function SwMerged(g: Geometry, st: State): (r: State)
    requires Shape(g, st) && st.swLbn < g.datas
    ensures Shape(g, r)
    ensures r.vt == st.vt
  {
    AfterSwitch(g, st, HashAfter(st, st.swLbn, g.pages, st.swNext),
                FlashAfter(g, st, st.swLbn, st.log[0], g.pages, st.swNext))
  }

  /** The second half of full_merge. */
  ghost function Remade(g: Geometry, st: State, lbn: nat): (r: State)
    requires Shape(g, st) && lbn < g.datas
    ensures Shape(g, r)
    ensures r.vt == st.vt
  {
    AfterFull(g, st, HashAfter(st, lbn, g.pages, 0), FlashAfter(g, st, lbn, st.free[0], g.pages, 0), lbn)
  }

  /** The names of the isolation block that a full merge goes through. */
  function VictimNames(g: Geometry, st: State): seq<Pg> { VictimList(g, st, NextIsol(g, st.vt)) }

  /** The victim page has moved on. */
  function At(g: Geometry, st: State, vt: Pg, list: seq<Pg>): State { st.(vt := vt, vtList := list) }

  /** The merges do not look at the victim page. */
  lemma SwMergedAt(g: Geometry, st: State, vt: Pg, list: seq<Pg>)
    requires Shape(g, st) && st.swLbn < g.datas && |list| == g.pages
    ensures SwMerged(g, At(g, st, vt, list)) == At(g, SwMerged(g, st), vt, list)
  {
    SameBlock(g, st, vt, list, st.swLbn, st.log[0], st.swNext);
  }

  lemma RemadeAt(g: Geometry, st: State, vt: Pg, list: seq<Pg>, lbn: nat)
    requires Shape(g, st) && lbn < g.datas && |list| == g.pages
    ensures Remade(g, At(g, st, vt, list), lbn) == At(g, Remade(g, st, lbn), vt, list)
  {
    SameBlock(g, st, vt, list, lbn, st.free[0], 0);
  }

  lemma SameBlock(g: Geometry, st: State, vt: Pg, list: seq<Pg>, lbn: nat, t: nat, m: nat)
    ensures FlashAfter(g, At(g, st, vt, list), lbn, t, g.pages, m) == FlashAfter(g, st, lbn, t, g.pages, m)
    ensures HashAfter(At(g, st, vt, list), lbn, g.pages, m) == HashAfter(st, lbn, g.pages, m)
  {
    var st' := At(g, st, vt, list);
    forall b: nat ensures LogVbn(g, st', b) == LogVbn(g, st, b) {
    }
    forall d ensures Resolve(g, st', d) == Resolve(g, st, d) {
    }
    assert BlockAfterMerge(g, st', lbn, t, g.pages, m) == BlockAfterMerge(g, st, lbn, t, g.pages, m);
  }

  /** The second half of full_merge, and the end of its victim block. */
  ghost function VictimMerged(g: Geometry, st: State, vt: Pg, list: seq<Pg>): (r: State)
    requires Shape(g, st) && |list| == g.pages && vt.b < g.isols && vt.o < g.pages && list[vt.o].b < g.datas
    ensures Shape(g, r)
  {
    var s := At(g, Remade(g, st, list[vt.o].b), vt, list);
    if vt.o + 2 == g.pages then AfterFree(g, s, vt.b) else s
  }

  lemma VictimMergedAt(g: Geometry, st: State, x: Pg, y: seq<Pg>, vt: Pg, list: seq<Pg>)
    requires Shape(g, st) && |y| == |list| == g.pages && vt.b < g.isols && vt.o < g.pages && list[vt.o].b < g.datas
    ensures VictimMerged(g, At(g, st, x, y), vt, list) == VictimMerged(g, st, vt, list)
  {
    RemadeAt(g, st, x, y, list[vt.o].b);
  }

  lemma {:induction false} FirstIsUsed(g: Geometry, st: State, b: nat, o: nat)
    ensures FirstValid(g, st, b, o) < Last(g) ==> !Unused(g, st, Pg(b, FirstValid(g, st, b, o)))
    decreases Last(g) - o
  {
    if o >= Last(g) || !Unused(g, st, Pg(b, o)) {
    } else {
      FirstIsUsed(g, st, b, o + 1);
    }
  }

  /** The list names the page that a full merge finds. */
  lemma FoundIsNamed(g: Geometry, st: State)
    requires Inv(g, st) && CanMerge(g, st)
    ensures var vt, list := Found(g, st), VictimNames(g, st);
      && vt.b < g.isols && |list| == g.pages
      && (vt.o < Last(g) ==> IsPage(g, list[vt.o]) && list[vt.o] in st.hash)
  {
    var vt, list := Found(g, st), VictimNames(g, st);
    NextIsAhead(g, st);
    if vt.o < Last(g) {
      FirstIsUsed(g, st, vt.b, NextIsol(g, st.vt).o);
      var d :| d in st.hash && st.hash[d] == Pg(g.logs + vt.b, vt.o);
      assert Ahead(g, NextIsol(g, st.vt), list, d, st.hash[d]) && EntryOk(g, st, d, st.hash[d]);
    }
  }

  /** full_merge: the block is given back if the search finds no valid page; otherwise the data block of the page is
      merged, after a partial merge if the sequential log block is for the same one. */
  ghost function FullyMerged(g: Geometry, st: State): (r: State)
    requires Shape(g, st)
    ensures Shape(g, r)
  {
    var vt, list := Found(g, st), VictimNames(g, st);
    if vt.b >= g.isols then st
    else if vt.o >= Last(g) then AfterFree(g, At(g, st, Pg(vt.b, g.pages - 2), list), vt.b)
    else if list[vt.o].b >= g.datas then st
    else if list[vt.o].b != st.swLbn then VictimMerged(g, st, vt, list)
    else if st.swNext <= list[vt.o].o then At(g, SwMerged(g, st), vt, list)
    else VictimMerged(g, SwMerged(g, st), vt, list)
  }

  /** It leaves the random log area alone, and the sequential log block as it is or empty. */
  lemma MergeLeaves(g: Geometry, st: State)
    requires Shape(g, st)
    ensures var r := FullyMerged(g, st); r.rwFree == st.rwFree && (r.swNext == st.swNext || r.swNext == 0)
  {
  }

  /** full_merge returns after its partial merge, at the last page of the victim block that is not for names. */
  ghost predicate ReturnsEarly(g: Geometry, st: State)
    requires Shape(g, st)
  {
    var vt, list := Found(g, st), VictimNames(g, st);
    vt.o + 2 == g.pages && list[vt.o].b == st.swLbn && st.swNext <= list[vt.o].o
  }

  /** That is exactly how the victim page gets stuck. */
  lemma StuckByEarlyReturn(g: Geometry, st: State)
    requires Inv(g, st) && CanMerge(g, st)
    ensures Stuck(g, FullyMerged(g, st)) <==> ReturnsEarly(g, st)
  {
    FoundIsNamed(g, st);
  }

  // ---- garbage collection -------------------------------------------------------------------------------------------

  /** In the middle of a collection: k pages have been written to the new block. */
  datatype Mid = Mid(st: State, k: nat)

  /** The tables other than the free ring have their sizes. */
  ghost predicate Sized(g: Geometry, st: State) { Shape(g, st.(free := seq(g.frees, i => 0))) }

  /** Of the names of block b, those of valid pages, when n have been looked at. */
  function Sift(st: State, b: nat, names: seq<Pg>, n: nat): seq<Pg> {
    seq(|names|, o requires 0 <= o < |names| =>
      if o < n && !(names[o] in st.hash && st.hash[names[o]] == Pg(b, o)) then NOWHERE else names[o])
  }

  function SiftedNames(g: Geometry, st: State, b: nat): seq<Pg> {
    Sift(st, b, ReadNames(g, CellAt(st.flash, LogVbn(g, st, b), Last(g))), Last(g))
  }

  lemma SiftNext(st: State, b: nat, names: seq<Pg>, n: nat)
    ensures Sift(st, b, names, 0) == names
    ensures n < |names| && names[n] in st.hash && st.hash[names[n]] == Pg(b, n) ==>
      Sift(st, b, names, n + 1) == Sift(st, b, names, n)
    ensures n < |names| && !(names[n] in st.hash && st.hash[names[n]] == Pg(b, n)) ==>
      Sift(st, b, names, n + 1) == Sift(st, b, names, n)[n := NOWHERE]
  {
  }

  ghost function Chanced(g: Geometry, m: Mid, b: nat, t: nat, o: nat): (r: Mid)
    ensures Sized(g, m.st) ==> Sized(g, r.st)
    ensures r.st.vt == m.st.vt && |r.st.rwList| == |m.st.rwList| && r.k <= m.k + 1
  {
    var st := m.st;
    if o < |st.rwList| && m.k < |st.rwList|
    then Mid(SecondChance(g, st, b, t, m.k, st.rwList[o], Read(g, CellAt(st.flash, LogVbn(g, st, b), o)),
                          st.sc + {Pg(b, m.k)}), m.k + 1)
    else m
  }

  /** The case of few valid pages, when n pages have been looked at. */
  ghost function Compacted(g: Geometry, st: State, b: nat, t: nat, n: nat): (r: Mid)
    ensures Sized(g, st) ==> Sized(g, r.st)
    ensures r.st.vt == st.vt && |r.st.rwList| == |st.rwList| && r.k <= n
  {
    if n == 0 then Mid(st, 0) else CompactStep(g, Compacted(g, st, b, t, n - 1), b, t, n - 1)
  }

  ghost function CompactStep(g: Geometry, m: Mid, b: nat, t: nat, o: nat): (r: Mid)
    ensures Sized(g, m.st) ==> Sized(g, r.st)
    ensures r.st.vt == m.st.vt && |r.st.rwList| == |m.st.rwList| && r.k <= m.k + 1
  {
    if o < |m.st.rwList| && m.st.rwList[o] == NOWHERE then m else Chanced(g, m, b, t, o)
  }

  /** A valid page that moves on to the new block leaves the isolation area as it is. */
  lemma ChanceKeeps(g: Geometry, st0: State, st: State, b: nat, t: nat, o: nat, k: nat)
    requires Inv(g, st0) && GcMid(g, st0, st, b, t, o, k) && o + 1 < g.pages && st.rwList[o] != NOWHERE
    ensures var m := Chanced(g, Mid(st, k), b, t, o);
      m.k == k + 1 && GcMid(g, st0, m.st, b, t, o + 1, k + 1) && SameRoom(g, st, m.st)
  {
    NamedIsOld(g, st0, st, b, t, o, k);
    MoveKeepsMid(g, st0, st, b, t, o, k, st.sc + {Pg(b, k)});
    ChanceKeepsRoom(g, st0, st, b, t, o, k, st.rwList[o], Resolve(g, st0, st.rwList[o]), st.sc + {Pg(b, k)});
  }

  /** In the compaction that began in st1, the valid ones of the first o pages have moved on, and nothing else. */
  ghost predicate IsCompacted(g: Geometry, st0: State, st1: State, m: Mid, b: nat, t: nat, o: nat) {
    && GcMid(g, st0, m.st, b, t, o, m.k) && SameRoom(g, st1, m.st) && |st1.rwList| == |m.st.rwList| == g.pages
    && o < g.pages && m.k == ValidBefore(st1.rwList, o)
    && forall p | o <= p < g.pages :: m.st.rwList[p] == st1.rwList[p]
  }

  lemma CompactedOne(g: Geometry, st0: State, st1: State, m: Mid, b: nat, t: nat, o: nat)
    requires Inv(g, st0) && IsCompacted(g, st0, st1, m, b, t, o) && o + 1 < g.pages
    ensures IsCompacted(g, st0, st1, CompactStep(g, m, b, t, o), b, t, o + 1)
  {
    if m.st.rwList[o] == NOWHERE {
      assert CompactStep(g, m, b, t, o) == m;
      SkipPage(g, st0, m.st, b, t, o, m.k);
    } else {
      MovedOne(g, st0, st1, m, b, t, o);
    }
  }

  lemma MovedOne(g: Geometry, st0: State, st1: State, m: Mid, b: nat, t: nat, o: nat)
    requires Inv(g, st0) && IsCompacted(g, st0, st1, m, b, t, o) && o + 1 < g.pages && m.st.rwList[o] != NOWHERE
    ensures IsCompacted(g, st0, st1, Chanced(g, m, b, t, o), b, t, o + 1)
  {
    ChanceKeeps(g, st0, m.st, b, t, o, m.k);
    var r := Chanced(g, m, b, t, o).st;
    assert SameRoom(g, st1, r);
    assert forall p | o < p < g.pages :: r.rwList[p] == m.st.rwList[p];
  }

  lemma {:induction false} CompactedIs(g: Geometry, st0: State, st1: State, b: nat, t: nat, n: nat)
    requires Inv(g, st0) && GcMid(g, st0, st1, b, t, 0, 0) && n < g.pages
    ensures IsCompacted(g, st0, st1, Compacted(g, st1, b, t, n), b, t, n)
  {
    if n == 0 {
      assert SameRoom(g, st1, st1);
    } else {
      CompactedIs(g, st0, st1, b, t, n - 1);
      CompactedOne(g, st0, st1, Compacted(g, st1, b, t, n - 1), b, t, n - 1);
    }
  }

  /** The whole case of few valid pages. */
  lemma FewAreCompacted(g: Geometry, st0: State, st: State, b: nat, t: nat)
    requires Inv(g, st0) && GcMid(g, st0, st, b, t, 0, 0)
    ensures var m := Compacted(g, st.(sc := st.sc - PagesOf(g, b)), b, t, Last(g));
      GcMid(g, st0, m.st, b, t, Last(g), m.k) && m.k == ValidBefore(st.rwList, Last(g)) && SameRoom(g, st, m.st)
  {
    var st1 := st.(sc := st.sc - PagesOf(g, b));
    BitsAreFree(g, st0, st, b, t, 0, 0, st1.sc);
    MidIsWritten(g, st0, st, b, t, 0, 0);
    RoomStays(g, st, st1);
    CompactedIs(g, st0, st1, b, t, Last(g));
  }

  /** A cold page goes to the isolation area. */
  ghost function Isolated(g: Geometry, st: State, b: nat, o: nat): (r: State)
    ensures Sized(g, st) ==> Sized(g, r)
    ensures r.vt == st.vt && r.sc == st.sc && r.rwList == st.rwList
  {
    if o < |st.rwList| && NextWrite(g, st).o < |st.isolList|
    then Appended(g, NamesWritten(g, st), st.rwList[o], NextWrite(g, st).b, NextWrite(g, st).o,
                  Read(g, CellAt(st.flash, LogVbn(g, st, b), o)))
    else st
  }

  /** The case of many valid pages. */
  ghost function Migrated(g: Geometry, st: State, b: nat, t: nat, n: nat): (r: Mid)
    ensures Sized(g, st) ==> Sized(g, r.st)
    ensures r.st.vt == st.vt
  {
    if n == 0 then Mid(st, 0) else MigrateStep(g, Migrated(g, st, b, t, n - 1), b, t, n - 1)
  }

  ghost function MigrateStep(g: Geometry, m: Mid, b: nat, t: nat, o: nat): (r: Mid)
    ensures Sized(g, m.st) ==> Sized(g, r.st)
    ensures r.st.vt == m.st.vt
  {
    var st := m.st.(sc := m.st.sc - {Pg(b, o)});
    if o < |st.rwList| && st.rwList[o] == NOWHERE then Mid(st, m.k)
    else if Pg(b, o) in m.st.sc then Mid(Isolated(g, st, b, o), m.k)
    else Chanced(g, Mid(st, m.k), b, t, o)
  }

  ghost function Emptied(g: Geometry, st: State, b: nat, t: nat): (r: Mid)
    ensures Sized(g, st) ==> Sized(g, r.st)
    ensures r.st.vt == st.vt
  {
    var valid := if Last(g) <= |st.rwList| then ValidBefore(st.rwList, Last(g)) else 0;
    if valid == 0 then Mid(st, 0)
    else if valid < g.pages / 2 then Compacted(g, st.(sc := st.sc - PagesOf(g, b)), b, t, Last(g))
    else Migrated(g, st, b, t, Last(g))
  }

  lemma EmptiedIs(g: Geometry, st: State, b: nat, t: nat, valid: nat)
    requires 0 < g.pages == |st.rwList| && valid == ValidBefore(st.rwList, g.pages - 1)
    ensures valid == 0 ==> Emptied(g, st, b, t) == Mid(st, 0)
    ensures 0 < valid < g.pages / 2 ==>
      Emptied(g, st, b, t) == Compacted(g, st.(sc := st.sc - PagesOf(g, b)), b, t, g.pages - 1)
    ensures valid > 0 && valid >= g.pages / 2 ==> Emptied(g, st, b, t) == Migrated(g, st, b, t, g.pages - 1)
  {
  }

  /** Log block b is collected; the list has the names of its valid pages. */
  ghost function Recycled(g: Geometry, st: State, b: nat): (r: State)
    requires Shape(g, st) && 0 < b < g.logs
    ensures Shape(g, r)
    ensures r.vt == st.vt
  {
    var m := Emptied(g, st.(free := st.free[1..]), b, st.free[0]);
    AfterGc(g, st, m.st, b, m.k)
  }

  /** garbage_collection. */
  ghost function Collected(g: Geometry, st: State): (r: State)
    requires Shape(g, st)
    ensures Shape(g, r)
    ensures r.vt == st.vt
  {
    var b := VictimOf(g, st.cur);
    var sifted := st.(rwList := SiftedNames(g, st, b));
    if IsPassedOver(g, st, b) then PassedOver(g, sifted, b) else Recycled(g, sifted, b)
  }

  /** The loop that collects until a block is free. */
  ghost function Freed(g: Geometry, st: State): (r: State)
    requires Shape(g, st)
    ensures Shape(g, r)
    ensures r.vt == st.vt
    decreases |Unmarked(g, st.sc)|
  {
    var b := VictimOf(g, st.cur);
    if IsPassedOver(g, st, b) && b in Unmarked(g, st.sc)
    then MarkingIsProgress(g, st.sc, st.sc + PagesOf(g, b), b); Freed(g, Collected(g, st))
    else Collected(g, st)
  }

  // ---- writing ------------------------------------------------------------------------------------------------------

  /** The next page of the open block. */
  function Advanced(g: Geometry, st: State): State { st.(cur := Pg(OpenBlock(g, st.cur), OpenPage(g, st.cur))) }

  /** assign_cur_write_rwlog_lpn. */
  ghost function Assigned(g: Geometry, st: State): (r: State)
    requires Shape(g, st)
    ensures Shape(g, r)
    ensures r.vt == st.vt
  {
    if st.cur.o + 2 != g.pages then Advanced(g, st)
    else if st.rwFree == 1 then Advanced(g, Freed(g, Closed(g, st).(rwFree := 0)))
    else Closed(g, st).(rwFree := if st.rwFree == 0 then 0 else st.rwFree - 1, cur := Pg(st.cur.b + 1, 0))
  }

  /** The pages before the first one of a stream are copied to the sequential log block. */
  ghost function Streamed(g: Geometry, st: State, lbn: nat, n: nat): (r: State)
    requires Shape(g, st) && n <= g.pages
    ensures Shape(g, r)
    ensures r.vt == st.vt
  {
    if n == 0 then st
    else
      var s, d := Streamed(g, st, lbn, n - 1), Pg(lbn, n - 1);
      Written(g, s, d, Pg(0, n - 1), Resolve(g, s, d))
  }

  /** No content has changed, and page n of data block lbn is next in the sequential log block. */
  ghost predicate IsStream(g: Geometry, st: State, r: State, lbn: nat, n: nat) {
    && Inv(g, r) && SameContent(g, st, r) && Blocks(g, r) == Blocks(g, st) && r.free == st.free
    && r.rwFree == st.rwFree && r.swNext == n && r.swLbn == if n == 0 then NONE else lbn
  }

  lemma StreamStarts(g: Geometry, st: State, lbn: nat)
    requires Inv(g, st) && st.swLbn == NONE
    ensures IsStream(g, st, st, lbn, 0)
  {
  }

  lemma StreamStep(g: Geometry, st: State, r: State, next: State, lbn: nat, n: nat)
    requires IsStream(g, st, r, lbn, n) && lbn < g.datas && n < g.pages
    requires var d := Pg(lbn, n); next == Written(g, r, d, Pg(0, n), Resolve(g, r, d))
    ensures IsStream(g, st, next, lbn, n + 1)
  {
    var d := Pg(lbn, n);
    WriteKeeps(g, r, d, Pg(0, n), Resolve(g, r, d));
    SameRewritten(g, st, r, next, d);
  }

  /** The states in which the pages are copied one after the other. */
  ghost predicate Copies(g: Geometry, at: nat -> State, lbn: nat, k: nat) {
    var d := Pg(lbn, k);
    |at(k).rwList| == g.pages && k < g.pages && at(k + 1) == Written(g, at(k), d, Pg(0, k), Resolve(g, at(k), d))
  }

  lemma {:induction false} CopiesKeep(g: Geometry, at: nat -> State, lbn: nat, n: nat)
    requires IsStream(g, at(0), at(0), lbn, 0) && lbn < g.datas && n <= g.pages
    requires forall k: nat | k < n :: Copies(g, at, lbn, k)
    ensures IsStream(g, at(0), at(n), lbn, n)
  {
    if n == 0 {
    } else {
      CopiesKeep(g, at, lbn, n - 1);
      assert Copies(g, at, lbn, n - 1);
      StreamStep(g, at(0), at(n - 1), at(n), lbn, n - 1);
    }
  }

  ghost function StreamAt(g: Geometry, st: State, lbn: nat): nat -> State
    requires Shape(g, st)
  {
    (k: nat) => Streamed(g, st, lbn, if k <= g.pages then k else 0)
  }

  lemma StreamCopies(g: Geometry, st: State, lbn: nat, k: nat)
    requires Shape(g, st) && k < g.pages
    ensures Copies(g, StreamAt(g, st, lbn), lbn, k)
  {
    var at := StreamAt(g, st, lbn);
    assert at(k) == Streamed(g, st, lbn, k) && at(k + 1) == Streamed(g, st, lbn, k + 1);
  }

  lemma StreamKeeps(g: Geometry, st: State, lbn: nat, n: nat)
    requires Inv(g, st) && st.swLbn == NONE && lbn < g.datas && n <= g.pages
    ensures IsStream(g, st, Streamed(g, st, lbn, n), lbn, n)
  {
    StreamStarts(g, st, lbn);
    var at := StreamAt(g, st, lbn);
    assert at(0) == Streamed(g, st, lbn, 0) == st && at(n) == Streamed(g, st, lbn, n);
    forall k: nat | k < n ensures Copies(g, at, lbn, k) {
      StreamCopies(g, st, lbn, k);
    }
    CopiesKeep(g, at, lbn, n);
  }
}
