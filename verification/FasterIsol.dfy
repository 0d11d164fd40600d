/** The victim pointer of the isolation area, and the exchange of a log block that nothing refers to. */
module FasterIsol {
  import opened FasterState
  import opened FasterMerge

  /** inc_vt_isol_lpn and inc_cur_write_isol_lpn, as block and page. */
  function NextIsol(g: Geometry, e: Pg): Pg {
    if e == NOWHERE then Pg(0, 0)
    else if e.o + 1 < g.pages then Pg(e.b, e.o + 1)
    else if e.b + 1 < g.isols then Pg(e.b + 1, 0) else Pg(0, 0)
  }

  /** The names read from the last page of a block. */
  function ReadNames(g: Geometry, c: Cell): (r: seq<Pg>)
    ensures |r| == g.pages
  {
    seq(g.pages, o requires 0 <= o => if c.Names? && o < |c.list| then c.list[o] else NOWHERE)
  }

  /** The list of the block of vt that full_merge has in memory when it looks at page vt. */
  function VictimList(g: Geometry, st: State, vt: Pg): seq<Pg> {
    if vt.o == 0 then ReadNames(g, CellAt(st.flash, LogVbn(g, st, g.logs + vt.b), Last(g))) else st.vtList
  }

  /** The code's own assertion: the block that is merged is not the one that is written. */
  predicate Clear(st: State, vt: Pg) { st.isolCur == NOWHERE || st.isolCur.b != vt.b }

  /** Entry e of page d is not before vt in its block, and the list names it. */
  ghost predicate Ahead(g: Geometry, vt: Pg, list: seq<Pg>, d: Pg, e: Pg) {
    e.b == g.logs + vt.b ==> vt.o <= e.o && Listed(list, e.o, d)
  }

  ghost predicate AllAhead(g: Geometry, st: State, vt: Pg, list: seq<Pg>) {
    forall d {:trigger Ahead(g, vt, list, d, st.hash[d])} | d in st.hash :: Ahead(g, vt, list, d, st.hash[d])
  }

  lemma NextIsAhead(g: Geometry, st: State)
    requires Inv(g, st) && Clear(st, NextIsol(g, st.vt))
    ensures var vt := NextIsol(g, st.vt); vt.b < g.isols && vt.o < g.pages && AllAhead(g, st, vt, VictimList(g, st, vt))
  {
    var vt := NextIsol(g, st.vt);
    forall d | d in st.hash ensures Ahead(g, vt, VictimList(g, st, vt), d, st.hash[d]) {
      assert IsolNamed(g, st, d, st.hash[d]) && EntryOk(g, st, d, st.hash[d]);
    }
  }

  /** Page vt is not referred to, so the pointer can pass it. */
  ghost predicate Unused(g: Geometry, st: State, vt: Pg)
  {
    forall d | d in st.hash :: st.hash[d] != Pg(g.logs + vt.b, vt.o)
  }

  lemma PassKeepsInv(g: Geometry, st: State, vt: Pg, list: seq<Pg>)
    requires Inv(g, st) && Clear(st, vt) && vt.b < g.isols && vt.o < g.pages && |list| == g.pages
    requires AllAhead(g, st, vt, list) && Unused(g, st, vt) && vt == NextIsol(g, st.vt) && vt.o != Last(g)
    requires st.isolFree < g.isols
    ensures var st' := st.(vt := vt, vtList := list);
      Inv(g, st') && SameContent(g, st, st') && Blocks(g, st') == Blocks(g, st)
  {
    var st' := st.(vt := vt, vtList := list);
    SameTablesKeepOwners(g, st, st');
    SameVbns(g, st, st');
    forall d | d in st.hash
      ensures EntryOk(g, st', d, st.hash[d]) && RwNamed(g, st', d, st.hash[d]) && IsolNamed(g, st', d, st.hash[d])
    {
      PassKeepsEntry(g, st, vt, list, d);
    }
    PassKeepsBlocks(g, st, vt, list);
    RingStays(g, st, st');
  }

  lemma PassKeepsEntry(g: Geometry, st: State, vt: Pg, list: seq<Pg>, d: Pg)
    requires Inv(g, st) && Clear(st, vt) && AllAhead(g, st, vt, list) && Unused(g, st, vt) && d in st.hash
    ensures var st' := st.(vt := vt, vtList := list);
      EntryOk(g, st', d, st.hash[d]) && RwNamed(g, st', d, st.hash[d]) && IsolNamed(g, st', d, st.hash[d])
  {
    SameVbns(g, st, st.(vt := vt, vtList := list));
    assert EntryOk(g, st, d, st.hash[d]) && RwNamed(g, st, d, st.hash[d]) && IsolNamed(g, st, d, st.hash[d]);
    assert Ahead(g, vt, list, d, st.hash[d]);
  }

  lemma PassKeepsBlocks(g: Geometry, st: State, vt: Pg, list: seq<Pg>)
    requires Inv(g, st)
    ensures var st' := st.(vt := vt, vtList := list);
      && (st.rwFree > 1 ==> forall b: nat {:trigger Fresh(g, st', b)} | OpenBlock(g, st.cur) < b < g.used ::
           Fresh(g, st', b))
      && (forall b: nat {:trigger Ascending(g, st', b)} | g.logs <= b < g.logs + g.isols :: Ascending(g, st', b))
  {
    var st' := st.(vt := vt, vtList := list);
    SameVbns(g, st, st');
    if st.rwFree > 1 {
      forall b: nat | OpenBlock(g, st.cur) < b < g.used ensures Fresh(g, st', b) {
        assert Fresh(g, st, b);
      }
    }
    forall b: nat | g.logs <= b < g.logs + g.isols ensures Ascending(g, st', b) {
      assert Ascending(g, st, b) && LogVbn(g, st', b) == LogVbn(g, st, b);
    }
  }

  // ---- a victim block that is done with -----------------------------------------------------------------------------

  /** The isolation block b takes a free block, and its own is erased and given back. */
  ghost function AfterFree(g: Geometry, st: State, b: nat): State
    requires Shape(g, st) && b < g.isols
  {
    st.(isol := st.isol[b := st.free[0]], free := st.free[1..] + [st.isol[b]], flash := Erase(g, st.flash, st.isol[b]),
        vt := Pg(b, g.pages - 1), isolFree := st.isolFree + 1)
  }

  /** No entry is in isolation block b. */
  ghost predicate Abandoned(g: Geometry, st: State, b: nat) { forall d | d in st.hash :: st.hash[d].b != g.logs + b }

  lemma FreeKeepsOwners(g: Geometry, st: State, b: nat)
    requires Inv(g, st) && b < g.isols
    ensures Shape(g, AfterFree(g, st, b)) && BlocksOk(g, AfterFree(g, st, b))
    ensures Blocks(g, AfterFree(g, st, b)) == Blocks(g, st)
    ensures st.isol[b] < g.blocks && st.free[0] < g.blocks && st.free[0] in st.free
  {
    var o := LogOf(g.logs + b);
    assert OwnerOk(g, st, o) && VbnOf(g, st, o) == st.isol[b];
    assert st.free[0] in st.free;
    assert Replaced(g, st, AfterFree(g, st, b), o);
    ReplaceKeepsOwners(g, st, AfterFree(g, st, b), o);
    ReplaceKeepsBlocks(g, st, AfterFree(g, st, b), o);
  }

  /** The cells of other owners' blocks are as they were. */
  lemma FreeLeaves(g: Geometry, st: State, b: nat, v: nat)
    requires Inv(g, st) && b < g.isols && v != st.isol[b]
    ensures Untouched(g, st, AfterFree(g, st, b), v)
  {
    FreeKeepsOwners(g, st, b);
    EraseCells(g, st.flash, st.isol[b]);
  }

  lemma FreeLeavesLog(g: Geometry, st: State, b: nat, c: nat)
    requires Inv(g, st) && b < g.isols && IsOwner(g, LogOf(c)) && c != g.logs + b
    ensures LogVbn(g, AfterFree(g, st, b), c) == LogVbn(g, st, c)
    ensures Untouched(g, st, AfterFree(g, st, b), LogVbn(g, st, c))
  {
    assert TwoOwners(g, st, LogOf(c), LogOf(g.logs + b)) && VbnOf(g, st, LogOf(g.logs + b)) == st.isol[b];
    assert VbnOf(g, st, LogOf(c)) == LogVbn(g, st, c);
    FreeLeaves(g, st, b, LogVbn(g, st, c));
  }

  lemma FreeLeavesEntry(g: Geometry, st: State, b: nat, d: Pg)
    requires Inv(g, st) && b < g.isols && Abandoned(g, st, b) && d in st.hash && Clear(st, Pg(b, 0))
    ensures var st' := AfterFree(g, st, b);
      EntryOk(g, st', d, st.hash[d]) && RwNamed(g, st', d, st.hash[d]) && IsolNamed(g, st', d, st.hash[d])
  {
    assert EntryOk(g, st, d, st.hash[d]) && RwNamed(g, st, d, st.hash[d]) && IsolNamed(g, st, d, st.hash[d]);
    FreeLeavesLog(g, st, b, st.hash[d].b);
  }

  lemma FreeKeepsPage(g: Geometry, st: State, b: nat, d: Pg)
    requires Inv(g, st) && b < g.isols && Abandoned(g, st, b) && IsPage(g, d)
    ensures Resolve(g, AfterFree(g, st, b), d) == Resolve(g, st, d)
  {
    if d in st.hash {
      assert EntryOk(g, st, d, st.hash[d]);
      FreeLeavesLog(g, st, b, st.hash[d].b);
    } else {
      assert TwoOwners(g, st, DataOf(d.b), LogOf(g.logs + b)) && VbnOf(g, st, DataOf(d.b)) == DataVbn(st, d.b);
      assert VbnOf(g, st, LogOf(g.logs + b)) == st.isol[b];
      FreeLeaves(g, st, b, DataVbn(st, d.b));
    }
  }

  lemma FreeRingStaysErased(g: Geometry, st: State, b: nat)
    requires Inv(g, st) && b < g.isols
    ensures FreeErased(AfterFree(g, st, b))
  {
    var st' := AfterFree(g, st, b);
    FreeKeepsOwners(g, st, b);
    EraseCells(g, st.flash, st.isol[b]);
    forall i | 0 <= i < |st'.free| ensures ErasedFrom(st'.flash, st'.free[i], 0) {
      if i < |st.free| - 1 {
        assert st'.free[i] == st.free[i + 1] && ErasedFrom(st.flash, st.free[i + 1], 0);
      }
    }
  }

  /** The block that is being merged becomes the last one of the ring. */
  ghost predicate CanFreeIsol(g: Geometry, st: State, b: nat) {
    b == FirstIsol(g, st) < g.isols && st.isolFree < g.isols
  }

  lemma FreeTurnsRing(g: Geometry, st: State, b: nat)
    requires Inv(g, st) && CanFreeIsol(g, st, b)
    ensures RingOk(g, AfterFree(g, st, b))
  {
    var st' := AfterFree(g, st, b);
    FreeIsErased(g, st, b);
    forall i: nat | i < g.isols ensures InTurn(g, st', i) {
      if i + 1 < g.isols {
        assert InTurn(g, st, i + 1) && IsolAt(g, st', i) == IsolAt(g, st, i + 1) != b;
        FreeLeavesLog(g, st, b, g.logs + IsolAt(g, st', i));
      } else {
        assert IsolAt(g, st', i) == b;
      }
    }
  }

  lemma FreeKeepsAreas(g: Geometry, st: State, b: nat)
    requires Inv(g, st) && b < g.isols && Abandoned(g, st, b) && Clear(st, Pg(b, 0)) && CanFreeIsol(g, st, b)
    ensures var st' := AfterFree(g, st, b); SwOk(g, st') && RwOk(g, st') && IsolOk(g, st') && IsolOpen(g, st')
  {
    var st' := AfterFree(g, st, b);
    FreeLeavesLog(g, st, b, 0);
    FreeTurnsRing(g, st, b);
    forall d | d in st.hash ensures RwNamed(g, st', d, st.hash[d]) && IsolNamed(g, st', d, st.hash[d]) {
      FreeLeavesEntry(g, st, b, d);
    }
    if st.rwFree > 0 {
      FreeLeavesLog(g, st, b, OpenBlock(g, st.cur));
    }
    forall c: nat | OpenBlock(g, st.cur) < c < g.used && st.rwFree > 1 ensures Fresh(g, st', c) {
      FreeLeavesLog(g, st, b, c);
      assert Fresh(g, st, c);
    }
    if st.isolCur != NOWHERE {
      FreeLeavesLog(g, st, b, g.logs + st.isolCur.b);
    }
    forall c: nat | g.logs <= c < g.logs + g.isols ensures Ascending(g, st', c) {
      if c == g.logs + b {
        FreeIsErased(g, st, b);
      } else {
        FreeLeavesLog(g, st, b, c);
        assert Ascending(g, st, c);
      }
    }
    forall o | 0 <= o < st.swNext ensures Pg(st.swLbn, o) in st'.hash {
    }
  }

  /** The block that comes from the ring is erased. */
  lemma FreeIsErased(g: Geometry, st: State, b: nat)
    requires Inv(g, st) && b < g.isols
    ensures ErasedFrom(AfterFree(g, st, b).flash, st.free[0], 0)
  {
    FreeKeepsOwners(g, st, b);
    EraseCells(g, st.flash, st.isol[b]);
    assert ErasedFrom(st.flash, st.free[0], 0);
  }

  /** Exchanging an isolation block that nothing refers to changes no content, keeps the invariant, and loses no
      block. */
  lemma FreeVictimKeeps(g: Geometry, st: State, b: nat)
    requires Inv(g, st) && b < g.isols && Abandoned(g, st, b) && Clear(st, Pg(b, 0)) && CanFreeIsol(g, st, b)
    ensures var st' := AfterFree(g, st, b); Inv(g, st') && SameContent(g, st, st') && Blocks(g, st') == Blocks(g, st)
  {
    var st' := AfterFree(g, st, b);
    FreeKeepsOwners(g, st, b);
    FreeRingStaysErased(g, st, b);
    FreeKeepsAreas(g, st, b);
    forall d | d in st.hash ensures EntryOk(g, st', d, st.hash[d]) {
      FreeLeavesEntry(g, st, b, d);
    }
    forall d | IsPage(g, d) ensures Resolve(g, st', d) == Resolve(g, st, d) {
      FreeKeepsPage(g, st, b, d);
    }
  }

  // ---- writing to the isolation area --------------------------------------------------------------------------------

  predicate InIsolArea(g: Geometry, b: nat) { g.logs <= b < g.logs + g.isols }

  /** The isolation blocks are different ones, and all flash blocks have their pages. */
  ghost predicate IsolDistinct(g: Geometry, st: State) {
    && (forall b: nat {:trigger LogVbn(g, st, b)} | InIsolArea(g, b) ::
         LogVbn(g, st, b) < |st.flash| && |st.flash[LogVbn(g, st, b)]| == g.pages)
    && (forall b: nat, c: nat {:trigger LogVbn(g, st, b), LogVbn(g, st, c)}
          | InIsolArea(g, b) && InIsolArea(g, c) && b != c ::
          LogVbn(g, st, b) != LogVbn(g, st, c))
  }

  lemma IsolsDiffer(g: Geometry, st: State, st': State)
    requires BlocksOk(g, st) && Shape(g, st) && SameLogs(st, st') && |st'.flash| == g.blocks
    requires forall v | 0 <= v < g.blocks :: |st'.flash[v]| == g.pages
    ensures IsolDistinct(g, st')
  {
    forall b: nat | InIsolArea(g, b) ensures LogVbn(g, st', b) < g.blocks {
      assert OwnerOk(g, st, LogOf(b)) && VbnOf(g, st, LogOf(b)) == LogVbn(g, st', b);
    }
    forall b: nat, c: nat | InIsolArea(g, b) && InIsolArea(g, c) && b != c
      ensures LogVbn(g, st', b) != LogVbn(g, st', c)
    {
      assert TwoOwners(g, st, LogOf(b), LogOf(c)) && VbnOf(g, st, LogOf(b)) == LogVbn(g, st', b);
      assert VbnOf(g, st, LogOf(c)) == LogVbn(g, st', c);
    }
  }

  predicate SameLogs(st: State, st': State) { st'.log == st.log && st'.isol == st.isol }

  /** The entries in the isolation area are for pages that have been written. */
  ghost predicate IsolWritten(g: Geometry, st: State) {
    forall d {:trigger WrittenAt(g, st, st.hash[d])} | d in st.hash :: WrittenAt(g, st, st.hash[d])
  }

  ghost predicate WrittenAt(g: Geometry, st: State, e: Pg) {
    g.logs <= e.b ==> InIsolArea(g, e.b) && CellAt(st.flash, LogVbn(g, st, e.b), e.o).Page?
  }

  /** Page q of isolation block c is the next one to write: after the last one in the same block, or the first of an
      erased block when the names of the last one's block have been written. */
  ghost predicate CanAppend(g: Geometry, st: State, c: nat, q: nat) {
    && c < g.isols && q < Last(g) && CellAt(st.flash, LogVbn(g, st, g.logs + c), q) == Erased
    && (st.vt != NOWHERE ==> c != st.vt.b)
    && (if st.isolCur != NOWHERE && c == st.isolCur.b then q == st.isolCur.o + 1 else q == 0)
    && (st.isolCur != NOWHERE && c != st.isolCur.b ==>
         CellAt(st.flash, LogVbn(g, st, g.logs + st.isolCur.b), Last(g)) == Names(st.isolList))
  }

  /** The state after data page d has been written there. */
  ghost function Appended(g: Geometry, st: State, d: Pg, c: nat, q: nat, data: Data): State
    requires q < |st.isolList|
  {
    st.(hash := st.hash[d := Pg(g.logs + c, q)], isolCur := Pg(c, q), isolList := st.isolList[q := d],
        flash := Program(st.flash, LogVbn(g, st, g.logs + c), q, Page(data)))
  }

  lemma AppendCells(g: Geometry, st: State, d: Pg, c: nat, q: nat, data: Data)
    requires IsolDistinct(g, st) && CanAppend(g, st, c, q) && |st.isolList| == g.pages
    ensures var st' := Appended(g, st, d, c, q, data);
      && (forall b: nat :: LogVbn(g, st', b) == LogVbn(g, st, b))
      && forall v: nat, p: nat :: CellAt(st'.flash, v, p) ==
           if v == LogVbn(g, st, g.logs + c) && p == q then Page(data) else CellAt(st.flash, v, p)
  {
    assert InIsolArea(g, g.logs + c);
    ProgramCells(st.flash, LogVbn(g, st, g.logs + c), q, Page(data));
  }

  /** No entry is in an erased block. */
  lemma ErasedHasNone(g: Geometry, st: State, c: nat, d: Pg)
    requires IsolOk(g, st) && IsolWritten(g, st) && c < g.isols
    requires CellAt(st.flash, LogVbn(g, st, g.logs + c), 0) == Erased && d in st.hash
    ensures st.hash[d].b != g.logs + c
  {
    assert Ascending(g, st, g.logs + c) && WrittenAt(g, st, st.hash[d]);
  }

  lemma AppendKeepsNames(g: Geometry, st: State, d: Pg, c: nat, q: nat, data: Data, e: Pg)
    requires IsolOk(g, st) && IsolWritten(g, st) && IsolDistinct(g, st) && CanAppend(g, st, c, q)
    requires |st.isolList| == g.pages
    requires e in st.hash && e != d && g.Valid()
    ensures IsolNamed(g, Appended(g, st, d, c, q, data), e, st.hash[e])
  {
    AppendCells(g, st, d, c, q, data);
    assert IsolNamed(g, st, e, st.hash[e]) && WrittenAt(g, st, st.hash[e]);
    if st.isolCur == NOWHERE || c != st.isolCur.b {
      ErasedHasNone(g, st, c, e);
    }
  }

  lemma AppendKeepsOrder(g: Geometry, st: State, d: Pg, c: nat, q: nat, data: Data, b: nat)
    requires IsolOk(g, st) && IsolDistinct(g, st) && CanAppend(g, st, c, q) && |st.isolList| == g.pages
    requires InIsolArea(g, b)
    ensures Ascending(g, Appended(g, st, d, c, q, data), b)
  {
    AppendCells(g, st, d, c, q, data);
    assert Ascending(g, st, b) && InIsolArea(g, g.logs + c);
  }

  lemma AppendKeepsIsol(g: Geometry, st: State, d: Pg, c: nat, q: nat, data: Data)
    requires IsolOk(g, st) && IsolWritten(g, st) && IsolDistinct(g, st) && CanAppend(g, st, c, q)
    requires |st.isolList| == g.pages < NONE
    requires d in st.hash && g.Valid()
    ensures IsolOk(g, Appended(g, st, d, c, q, data))
  {
    var st' := Appended(g, st, d, c, q, data);
    AppendCells(g, st, d, c, q, data);
    forall e | e in st'.hash ensures IsolNamed(g, st', e, st'.hash[e]) {
      if e != d {
        AppendKeepsNames(g, st, d, c, q, data, e);
      }
    }
    forall b: nat | g.logs <= b < g.logs + g.isols ensures Ascending(g, st', b) {
      AppendKeepsOrder(g, st, d, c, q, data, b);
    }
  }

  // ---- room in the isolation area -----------------------------------------------------------------------------------

  /** The next page to write, past the page that is for names. */
  function NextWrite(g: Geometry, st: State): Pg {
    var e := NextIsol(g, st.isolCur);
    if e.o == Last(g) then NextIsol(g, e) else e
  }

  /** The pages that are left in the isolation block that is being written. */
  function PagesLeft(g: Geometry, st: State): nat {
    if st.isolCur == NOWHERE || st.isolCur.o + 2 > g.pages then 0 else g.pages - 2 - st.isolCur.o
  }

  /** The isolation block that is written after that one. */
  function BlockAfter(g: Geometry, st: State): nat {
    if st.isolCur == NOWHERE || st.isolCur.b + 1 >= g.isols then 0 else st.isolCur.b + 1
  }

  /** That block has been merged and erased since it was written, and is not the one that is being merged. */
  predicate BlockAfterFree(g: Geometry, st: State) {
    && CellAt(st.flash, LogVbn(g, st, g.logs + BlockAfter(g, st)), 0) == Erased
    && (st.vt != NOWHERE ==> BlockAfter(g, st) != st.vt.b)
  }

  /** There is room for m more pages, fewer than a block has. */
  predicate IsolRoom(g: Geometry, st: State, m: nat) { m <= PagesLeft(g, st) || BlockAfterFree(g, st) }

  /** The next block is the one that is being merged, or has been merged last, which the code asserts it is not. */
  predicate MeetsVictim(g: Geometry, st: State) { st.vt != NOWHERE && BlockAfter(g, st) == st.vt.b }

  /** All isolation blocks but the one that is being written have been written, and none has ever been merged. */
  predicate AllWritten(g: Geometry, st: State) {
    st.isolCur != NOWHERE && st.isolFree == 1 && st.vt == NOWHERE
  }

  /** There is no room for two reasons: an assertion fails, or the area overflows into its first block, which no
      assertion notices. The count of free isolation blocks is 0 then, so that the assertion on that count fails at the
      page after. */
  lemma NoRoom(g: Geometry, st: State, m: nat)
    requires IsolOk(g, st) && IsolOpen(g, st) && g.Valid()
    ensures !IsolRoom(g, st, m) <==> m > PagesLeft(g, st) && (MeetsVictim(g, st) || AllWritten(g, st))
    ensures !(MeetsVictim(g, st) && AllWritten(g, st))
    ensures AllWritten(g, st) && PagesLeft(g, st) == 0 ==> NamesWritten(g, st).isolFree == 0
  {
    assert InTurn(g, st, 0) && Ascending(g, st, g.logs + BlockAfter(g, st));
    if st.isolCur != NOWHERE {
      var k := g.isols - st.isolFree;
      assert InTurn(g, st, k) && (st.isolFree > 1 ==> InTurn(g, st, k + 1));
      assert st.isolFree > 1 ==> BlockAfter(g, st) == IsolAt(g, st, k + 1);
      assert st.isolFree == 1 ==> BlockAfter(g, st) == FirstIsol(g, st);
    }
  }

  /** The names of the block that is full are written before the next page is. */
  function NamesWritten(g: Geometry, st: State): State {
    if st.isolCur != NOWHERE && st.isolCur.o + 1 == Last(g)
    then st.(flash := Program(st.flash, LogVbn(g, st, g.logs + st.isolCur.b), Last(g), Names(st.isolList)),
             isolFree := st.isolFree - 1)
    else st
  }

  lemma NamesCells(g: Geometry, st: State)
    requires IsolDistinct(g, st) && IsolOk(g, st) && g.Valid()
    ensures forall v: nat, p: nat | p != Last(g) :: CellAt(NamesWritten(g, st).flash, v, p) == CellAt(st.flash, v, p)
    ensures forall b: nat, p: nat | InIsolArea(g, b) && !(st.isolCur != NOWHERE && b == g.logs + st.isolCur.b) ::
              CellAt(NamesWritten(g, st).flash, LogVbn(g, st, b), p) == CellAt(st.flash, LogVbn(g, st, b), p)
  {
    if st.isolCur != NOWHERE && st.isolCur.o + 1 == Last(g) {
      assert InIsolArea(g, g.logs + st.isolCur.b);
      ProgramCells(st.flash, LogVbn(g, st, g.logs + st.isolCur.b), Last(g), Names(st.isolList));
    }
  }

  /** The next page can be written exactly if there is room for one more: within a block nothing can be in the way. */
  lemma RoomForOne(g: Geometry, st: State)
    requires IsolOk(g, st) && IsolOpen(g, st) && IsolDistinct(g, st) && g.Valid()
    ensures var e, st' := NextWrite(g, st), NamesWritten(g, st);
      && e.b < g.isols && e.o < Last(g)
      && (IsolRoom(g, st, 1) <==>
           !(st.vt != NOWHERE && e.b == st.vt.b) && CellAt(st'.flash, LogVbn(g, st, g.logs + e.b), e.o) == Erased)
  {
    NamesCells(g, st);
  }

  lemma NamesKeepDistinct(g: Geometry, st: State)
    requires IsolDistinct(g, st) && IsolOk(g, st) && g.Valid()
    ensures IsolDistinct(g, NamesWritten(g, st))
  {
    var st' := NamesWritten(g, st);
    forall b: nat | InIsolArea(g, b)
      ensures LogVbn(g, st', b) < |st'.flash| && |st'.flash[LogVbn(g, st', b)]| == g.pages
    {
      assert LogVbn(g, st', b) == LogVbn(g, st, b);
    }
    forall b: nat, c: nat | InIsolArea(g, b) && InIsolArea(g, c) && b != c
      ensures LogVbn(g, st', b) != LogVbn(g, st', c)
    {
      assert LogVbn(g, st', b) == LogVbn(g, st, b) && LogVbn(g, st', c) == LogVbn(g, st, c);
    }
  }

  lemma AppendInBlock(g: Geometry, st: State, d: Pg, data: Data, m: nat)
    requires IsolOk(g, st) && IsolOpen(g, st) && IsolDistinct(g, st) && g.Valid() && |st.isolList| == g.pages
    requires 0 < m && PagesLeft(g, st) > 0
    ensures var st' := Appended(g, st, d, st.isolCur.b, st.isolCur.o + 1, data);
      IsolOpen(g, st') && (IsolRoom(g, st', m - 1) <==> IsolRoom(g, st, m))
  {
    var v := LogVbn(g, st, g.logs + st.isolCur.b);
    assert InIsolArea(g, g.logs + st.isolCur.b);
    ProgramCells(st.flash, v, st.isolCur.o + 1, Page(data));
    AppendInRing(g, st, d, data);
  }

  lemma AppendInRing(g: Geometry, st: State, d: Pg, data: Data)
    requires IsolOk(g, st) && IsolOpen(g, st) && IsolDistinct(g, st) && g.Valid() && |st.isolList| == g.pages
    requires PagesLeft(g, st) > 0
    ensures RingOk(g, Appended(g, st, d, st.isolCur.b, st.isolCur.o + 1, data))
  {
    var st' := Appended(g, st, d, st.isolCur.b, st.isolCur.o + 1, data);
    assert InIsolArea(g, g.logs + st.isolCur.b);
    ProgramCells(st.flash, LogVbn(g, st, g.logs + st.isolCur.b), st.isolCur.o + 1, Page(data));
    forall i: nat | i < g.isols ensures InTurn(g, st', i) {
      assert InTurn(g, st, i) && IsolAt(g, st', i) == IsolAt(g, st, i) < g.isols;
      assert InIsolArea(g, g.logs + IsolAt(g, st, i));
    }
  }

  /** The block after the one that is being written is next in the ring. */
  lemma NextIsInTurn(g: Geometry, st: State)
    requires IsolOk(g, st) && IsolOpen(g, st) && g.Valid() && PagesLeft(g, st) == 0 && BlockAfterFree(g, st)
    ensures st.isolCur == NOWHERE ==> BlockAfter(g, st) == IsolAt(g, st, 0)
    ensures st.isolCur != NOWHERE ==> st.isolFree > 1 && BlockAfter(g, st) == IsolAt(g, st, g.isols - st.isolFree + 1)
  {
    assert InTurn(g, st, 0) && Ascending(g, st, g.logs + FirstIsol(g, st));
    if st.isolCur != NOWHERE {
      assert InTurn(g, st, g.isols - st.isolFree) && Ascending(g, st, g.logs + st.isolCur.b);
      assert st.isolFree == 1 ==> BlockAfter(g, st) == FirstIsol(g, st);
    }
  }

  /** The state in which the next block has been begun. */
  ghost function TurnedTo(g: Geometry, st: State, d: Pg, data: Data): State
    requires 0 < |st.isolList|
  {
    Appended(g, NamesWritten(g, st), d, BlockAfter(g, st), 0, data)
  }

  lemma TurnFirst(g: Geometry, st: State, d: Pg, data: Data, b: nat)
    requires IsolOk(g, st) && IsolDistinct(g, st) && g.Valid() && |st.isolList| == g.pages
    requires InIsolArea(g, b) && b != g.logs + BlockAfter(g, st)
    ensures var v, f := LogVbn(g, st, b), TurnedTo(g, st, d, data).flash;
      forall p: nat :: CellAt(f, v, p) == CellAt(NamesWritten(g, st).flash, v, p)
  {
    var c, mid := BlockAfter(g, st), NamesWritten(g, st);
    assert InIsolArea(g, g.logs + c) && LogVbn(g, mid, g.logs + c) == LogVbn(g, st, g.logs + c);
    NamesKeepDistinct(g, st);
    ProgramCells(mid.flash, LogVbn(g, st, g.logs + c), 0, Page(data));
  }

  lemma TurnNames(g: Geometry, st: State, b: nat)
    requires IsolOk(g, st) && IsolDistinct(g, st) && g.Valid() && PagesLeft(g, st) == 0 && InIsolArea(g, b)
    ensures var v, f := LogVbn(g, st, b), NamesWritten(g, st).flash;
      && CellAt(f, v, 0) == CellAt(st.flash, v, 0)
      && CellAt(f, v, Last(g)) ==
           if st.isolCur != NOWHERE && b == g.logs + st.isolCur.b then Names(st.isolList)
           else CellAt(st.flash, v, Last(g))
  {
    if st.isolCur != NOWHERE {
      assert InIsolArea(g, g.logs + st.isolCur.b);
      ProgramCells(st.flash, LogVbn(g, st, g.logs + st.isolCur.b), Last(g), Names(st.isolList));
    }
  }

  lemma TurnCells(g: Geometry, st: State, d: Pg, data: Data, b: nat)
    requires IsolOk(g, st) && IsolOpen(g, st) && IsolDistinct(g, st) && g.Valid() && |st.isolList| == g.pages
    requires PagesLeft(g, st) == 0 && BlockAfterFree(g, st) && InIsolArea(g, b)
    ensures var v, f := LogVbn(g, st, b), TurnedTo(g, st, d, data).flash;
      && (b != g.logs + BlockAfter(g, st) ==> CellAt(f, v, 0) == CellAt(st.flash, v, 0))
      && (if st.isolCur != NOWHERE && b == g.logs + st.isolCur.b then CellAt(f, v, Last(g)) == Names(st.isolList)
          else CellAt(f, v, Last(g)) == CellAt(st.flash, v, Last(g)))
  {
    TurnNames(g, st, b);
    if b != g.logs + BlockAfter(g, st) {
      TurnFirst(g, st, d, data, b);
    } else {
      var mid := NamesWritten(g, st);
      NamesKeepDistinct(g, st);
      assert LogVbn(g, mid, b) == LogVbn(g, st, b);
      ProgramCells(mid.flash, LogVbn(g, st, b), 0, Page(data));
    }
  }

  /** In another state st', only the next block is no longer erased, and only the last one has its names. */
  lemma NextInTurn(g: Geometry, st: State, st': State, i: nat)
    requires IsolOk(g, st) && IsolOpen(g, st) && g.Valid() && PagesLeft(g, st) == 0 && BlockAfterFree(g, st)
    requires st'.isolCur == Pg(BlockAfter(g, st), 0) && st'.vt == st.vt && i < g.isols
    requires st'.isolFree == if st.isolCur == NOWHERE then st.isolFree else st.isolFree - 1
    requires var b := g.logs + IsolAt(g, st, i);
      && (b != g.logs + BlockAfter(g, st) ==>
           CellAt(st'.flash, LogVbn(g, st', b), 0) == CellAt(st.flash, LogVbn(g, st, b), 0))
      && CellAt(st'.flash, LogVbn(g, st', b), Last(g)) ==
           if st.isolCur != NOWHERE && b == g.logs + st.isolCur.b then Names(st.isolList)
           else CellAt(st.flash, LogVbn(g, st, b), Last(g))
    ensures InTurn(g, st', i)
  {
    NextIsInTurn(g, st);
    assert InTurn(g, st, i) && IsolAt(g, st', i) == IsolAt(g, st, i) < g.isols;
    assert st.isolCur != NOWHERE ==> InTurn(g, st, g.isols - st.isolFree);
  }

  lemma AppendTurnsOne(g: Geometry, st: State, d: Pg, data: Data, i: nat)
    requires IsolOk(g, st) && IsolOpen(g, st) && IsolDistinct(g, st) && g.Valid() && |st.isolList| == g.pages
    requires PagesLeft(g, st) == 0 && BlockAfterFree(g, st) && i < g.isols
    ensures InTurn(g, TurnedTo(g, st, d, data), i)
  {
    var st', b := TurnedTo(g, st, d, data), g.logs + IsolAt(g, st, i);
    NextIsInTurn(g, st);
    assert InTurn(g, st, i) && IsolAt(g, st, i) < g.isols;
    TurnCells(g, st, d, data, b);
    assert LogVbn(g, st', b) == LogVbn(g, st, b);
    NextInTurn(g, st, st', i);
  }

  /** Another isolation block is full, and the next one is begun. */
  lemma AppendTurnsRing(g: Geometry, st: State, d: Pg, data: Data)
    requires IsolOk(g, st) && IsolOpen(g, st) && IsolDistinct(g, st) && g.Valid() && |st.isolList| == g.pages
    requires PagesLeft(g, st) == 0 && BlockAfterFree(g, st)
    ensures RingOk(g, TurnedTo(g, st, d, data))
  {
    NextIsInTurn(g, st);
    forall i: nat | i < g.isols ensures InTurn(g, TurnedTo(g, st, d, data), i) {
      AppendTurnsOne(g, st, d, data, i);
    }
  }

  lemma AppendInNext(g: Geometry, st: State, d: Pg, data: Data, m: nat)
    requires IsolOk(g, st) && IsolOpen(g, st) && IsolDistinct(g, st) && g.Valid() && |st.isolList| == g.pages
    requires 0 < m < g.pages && PagesLeft(g, st) == 0 && BlockAfterFree(g, st)
    ensures var st' := Appended(g, NamesWritten(g, st), d, BlockAfter(g, st), 0, data);
      IsolOpen(g, st') && IsolRoom(g, st', m - 1)
  {
    var c, mid := BlockAfter(g, st), NamesWritten(g, st);
    var v := LogVbn(g, st, g.logs + c);
    assert InIsolArea(g, g.logs + c) && Ascending(g, st, g.logs + c);
    NamesCells(g, st);
    NamesKeepDistinct(g, st);
    assert LogVbn(g, mid, g.logs + c) == v;
    ProgramCells(mid.flash, v, 0, Page(data));
    AppendTurnsRing(g, st, d, data);
  }

  /** Writing one page takes up the room of one page. */
  lemma RoomAfterAppend(g: Geometry, st: State, d: Pg, data: Data, m: nat)
    requires IsolOk(g, st) && IsolOpen(g, st) && IsolDistinct(g, st) && g.Valid() && |st.isolList| == g.pages
    requires 0 < m < g.pages && IsolRoom(g, st, 1)
    ensures var st' := Appended(g, NamesWritten(g, st), d, NextWrite(g, st).b, NextWrite(g, st).o, data);
      IsolOpen(g, st') && (IsolRoom(g, st', m - 1) <==> IsolRoom(g, st, m))
  {
    if PagesLeft(g, st) > 0 {
      AppendInBlock(g, st, d, data, m);
    } else {
      AppendInNext(g, st, d, data, m);
    }
  }

  /** The names of the block that is full are written to its last page. */
  lemma CloseKeepsIsol(g: Geometry, st: State, st': State)
    requires IsolOk(g, st) && IsolDistinct(g, st) && st.isolCur != NOWHERE && st.isolCur.o + 1 == Last(g)
    requires CellAt(st.flash, LogVbn(g, st, g.logs + st.isolCur.b), Last(g)) == Erased
    requires st' == NamesWritten(g, st)
    ensures IsolOk(g, st')
  {
    var v := LogVbn(g, st, g.logs + st.isolCur.b);
    assert InIsolArea(g, g.logs + st.isolCur.b);
    ProgramCells(st.flash, v, Last(g), Names(st.isolList));
    forall d | d in st.hash ensures IsolNamed(g, st', d, st.hash[d]) {
      assert IsolNamed(g, st, d, st.hash[d]);
    }
    forall b: nat | g.logs <= b < g.logs + g.isols ensures Ascending(g, st', b) {
      assert Ascending(g, st, b) && InIsolArea(g, b) && LogVbn(g, st', b) == LogVbn(g, st, b);
    }
  }

  /** The next page to write in the isolation area, when it is erased and not in the victim block. */
  lemma NextCanAppend(g: Geometry, st: State, e: Pg)
    requires IsolOk(g, st) && g.Valid() && (st.vt != NOWHERE ==> e.b != st.vt.b) && e.o < Last(g)
    requires CellAt(st.flash, LogVbn(g, st, g.logs + e.b), e.o) == Erased
    requires if st.isolCur != NOWHERE && st.isolCur.o + 1 == Last(g)
      then e == NextIsol(g, Pg(st.isolCur.b, Last(g)))
          && CellAt(st.flash, LogVbn(g, st, g.logs + st.isolCur.b), Last(g)) == Names(st.isolList)
      else e == NextIsol(g, st.isolCur)
    ensures CanAppend(g, st, e.b, e.o)
  {
    if st.isolCur != NOWHERE {
      assert Ascending(g, st, g.logs + st.isolCur.b);
    }
  }
}
