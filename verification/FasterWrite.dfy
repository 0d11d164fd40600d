/** Writing one page to the log area, and opening and closing random log blocks. */
module FasterWrite {
  import opened FasterState
  import opened FasterMerge
  import opened FasterIsol
  import opened FasterGc
  import opened FasterTurns

  /** The state after data page d has been written to log page e. */
  ghost function Written(g: Geometry, st: State, d: Pg, e: Pg, data: Data): State
    requires e.o < |st.rwList|
  {
    st.(hash := st.hash[d := e], vc := st.vc + {d}, flash := Program(st.flash, LogVbn(g, st, e.b), e.o, Page(data)),
        rwList := if e.b == 0 then st.rwList else st.rwList[e.o := d],
        swLbn := if e.b == 0 then d.b else st.swLbn, swNext := if e.b == 0 then e.o + 1 else st.swNext)
  }

  /** Page e is the next one of the sequential log block, and d's own place in it. */
  ghost predicate CanAppendSw(g: Geometry, st: State, d: Pg, e: Pg) {
    IsPage(g, d) && e == Pg(0, d.o) && d.o == st.swNext && (st.swLbn == d.b || st.swLbn == NONE)
  }

  /** Page e is the one just assigned in the random log area. */
  ghost predicate CanWriteRw(g: Geometry, st: State, d: Pg, e: Pg) {
    && IsPage(g, d) && e == st.cur && 0 < e.b < g.used && e.o < Last(g) && st.rwFree > 0
    && CellAt(st.flash, LogVbn(g, st, e.b), e.o) == Erased
  }

  ghost predicate CanWrite(g: Geometry, st: State, d: Pg, e: Pg) { CanAppendSw(g, st, d, e) || CanWriteRw(g, st, d, e) }

  lemma TargetErased(g: Geometry, st: State, d: Pg, e: Pg)
    requires Inv(g, st) && CanWrite(g, st, d, e)
    ensures IsOwner(g, LogOf(e.b)) && LogVbn(g, st, e.b) < g.blocks && e.o < g.pages
    ensures CellAt(st.flash, LogVbn(g, st, e.b), e.o) == Erased
  {
    assert OwnerOk(g, st, LogOf(e.b)) && VbnOf(g, st, LogOf(e.b)) == LogVbn(g, st, e.b);
  }

  lemma WriteCells(g: Geometry, st: State, d: Pg, e: Pg, data: Data)
    requires Inv(g, st) && CanWrite(g, st, d, e)
    ensures forall v: nat, o: nat ::
      CellAt(Written(g, st, d, e, data).flash, v, o) ==
          (if v == LogVbn(g, st, e.b) && o == e.o then Page(data) else CellAt(st.flash, v, o))
  {
    TargetErased(g, st, d, e);
    ProgramCells(st.flash, LogVbn(g, st, e.b), e.o, Page(data));
  }

  /** Nothing was at page e before. */
  lemma NothingThere(g: Geometry, st: State, d: Pg, e: Pg, c: Pg)
    requires Inv(g, st) && CanWrite(g, st, d, e) && c in st.hash
    ensures st.hash[c] != e && (LogVbn(g, st, st.hash[c].b) != LogVbn(g, st, e.b) || st.hash[c].o != e.o)
  {
    TargetErased(g, st, d, e);
    assert EntryOk(g, st, c, st.hash[c]);
    assert TwoOwners(g, st, LogOf(st.hash[c].b), LogOf(e.b)) && VbnOf(g, st, LogOf(e.b)) == LogVbn(g, st, e.b);
    assert VbnOf(g, st, LogOf(st.hash[c].b)) == LogVbn(g, st, st.hash[c].b);
  }

  lemma WriteKeepsEntry(g: Geometry, st: State, d: Pg, e: Pg, data: Data, c: Pg)
    requires Inv(g, st) && CanWrite(g, st, d, e) && c in st.hash && c != d
    ensures var st' := Written(g, st, d, e, data);
      EntryOk(g, st', c, st.hash[c]) && RwNamed(g, st', c, st.hash[c]) && IsolNamed(g, st', c, st.hash[c])
  {
    var st' := Written(g, st, d, e, data);
    SameVbns(g, st, st');
    WriteCells(g, st, d, e, data);
    NothingThere(g, st, d, e, c);
    TargetErased(g, st, d, e);
    assert EntryOk(g, st, c, st.hash[c]) && RwNamed(g, st, c, st.hash[c]) && IsolNamed(g, st, c, st.hash[c]);
  }

  lemma NewEntryOk(g: Geometry, st: State, d: Pg, e: Pg, data: Data)
    requires Inv(g, st) && CanWrite(g, st, d, e)
    ensures var st' := Written(g, st, d, e, data);
      EntryOk(g, st', d, e) && RwNamed(g, st', d, e) && IsolNamed(g, st', d, e)
  {
    SameVbns(g, st, Written(g, st, d, e, data));
    WriteCells(g, st, d, e, data);
    TargetErased(g, st, d, e);
  }

  lemma WriteKeepsHash(g: Geometry, st: State, d: Pg, e: Pg, data: Data)
    requires Inv(g, st) && CanWrite(g, st, d, e)
    ensures HashOk(g, Written(g, st, d, e, data))
  {
    var st' := Written(g, st, d, e, data);
    NewEntryOk(g, st, d, e, data);
    forall c | c in st'.hash ensures EntryOk(g, st', c, st'.hash[c]) {
      if c != d {
        WriteKeepsEntry(g, st, d, e, data, c);
      }
    }
    forall c, f | c in st'.hash && f in st'.hash && c != f ensures st'.hash[c] != st'.hash[f] {
      if c == d {
        NothingThere(g, st, d, e, f);
      } else if f == d {
        NothingThere(g, st, d, e, c);
      }
    }
  }

  lemma WriteKeepsSw(g: Geometry, st: State, d: Pg, e: Pg, data: Data)
    requires Inv(g, st) && CanWrite(g, st, d, e)
    ensures SwOk(g, Written(g, st, d, e, data))
  {
    var st' := Written(g, st, d, e, data);
    SameVbns(g, st, st');
    WriteCells(g, st, d, e, data);
    TargetErased(g, st, d, e);
    assert TwoOwners(g, st, LogOf(0), LogOf(e.b)) && VbnOf(g, st, LogOf(e.b)) == LogVbn(g, st, e.b);
    assert VbnOf(g, st, LogOf(0)) == LogVbn(g, st, 0);
    forall o | 0 <= o < st'.swNext ensures Pg(st'.swLbn, o) in st'.hash {
      assert o < st.swNext ==> Pg(st.swLbn, o) in st.hash;
      assert o == d.o && e.b == 0 ==> Pg(st'.swLbn, o) == d;
    }
  }

  lemma WriteKeepsLogs(g: Geometry, st: State, d: Pg, e: Pg, data: Data)
    requires Inv(g, st) && CanWrite(g, st, d, e)
    ensures var st' := Written(g, st, d, e, data); RwOk(g, st') && IsolOk(g, st') && IsolOpen(g, st')
  {
    var st' := Written(g, st, d, e, data);
    SameVbns(g, st, st');
    WriteCells(g, st, d, e, data);
    TargetErased(g, st, d, e);
    NewEntryOk(g, st, d, e, data);
    forall c | c in st'.hash ensures RwNamed(g, st', c, st'.hash[c]) && IsolNamed(g, st', c, st'.hash[c]) {
      if c != d {
        WriteKeepsEntry(g, st, d, e, data, c);
      }
    }
    WriteKeepsBlocks(g, st, d, e, data);
  }

  lemma WriteKeepsBlocks(g: Geometry, st: State, d: Pg, e: Pg, data: Data)
    requires Inv(g, st) && CanWrite(g, st, d, e)
    ensures var st' := Written(g, st, d, e, data);
      && (st.rwFree > 0 ==> ErasedFrom(st'.flash, LogVbn(g, st', OpenBlock(g, st.cur)), OpenPage(g, st.cur)))
      && (st.rwFree > 1 ==> forall b: nat {:trigger Fresh(g, st', b)} | OpenBlock(g, st.cur) < b < g.used ::
           Fresh(g, st', b))
      && (forall b: nat {:trigger Ascending(g, st', b)} | g.logs <= b < g.logs + g.isols :: Ascending(g, st', b))
      && (st.isolCur != NOWHERE ==> CellAt(st'.flash, LogVbn(g, st', g.logs + st.isolCur.b), st.isolCur.o) != Erased)
      && IsolOpen(g, st')
  {
    var st' := Written(g, st, d, e, data);
    SameVbns(g, st, st');
    WriteCells(g, st, d, e, data);
    TargetErased(g, st, d, e);
    assert VbnOf(g, st, LogOf(e.b)) == LogVbn(g, st, e.b);
    forall b: nat | IsOwner(g, LogOf(b)) && b != e.b ensures LogVbn(g, st, b) != LogVbn(g, st, e.b) {
      assert TwoOwners(g, st, LogOf(b), LogOf(e.b)) && VbnOf(g, st, LogOf(b)) == LogVbn(g, st, b);
    }
    forall b: nat | OpenBlock(g, st.cur) < b < g.used && st.rwFree > 1 ensures Fresh(g, st', b) {
      assert Fresh(g, st, b) && IsOwner(g, LogOf(b));
    }
    forall b: nat | g.logs <= b < g.logs + g.isols ensures Ascending(g, st', b) {
      assert Ascending(g, st, b) && IsOwner(g, LogOf(b));
    }
    if st.isolCur != NOWHERE {
      assert IsOwner(g, LogOf(g.logs + st.isolCur.b));
    }
    if st.rwFree > 0 {
      assert IsOwner(g, LogOf(OpenBlock(g, st.cur)));
    }
    forall b: nat, p: nat | g.logs <= b < g.logs + g.isols
      ensures CellAt(st'.flash, LogVbn(g, st', b), p) == CellAt(st.flash, LogVbn(g, st, b), p)
    {
      assert IsOwner(g, LogOf(b));
    }
    RingStays(g, st, st');
  }

  lemma WriteKeepsFree(g: Geometry, st: State, d: Pg, e: Pg, data: Data)
    requires Inv(g, st) && CanWrite(g, st, d, e)
    ensures FreeErased(Written(g, st, d, e, data))
  {
    var st' := Written(g, st, d, e, data);
    WriteCells(g, st, d, e, data);
    TargetErased(g, st, d, e);
    forall i | 0 <= i < |st'.free| ensures ErasedFrom(st'.flash, st'.free[i], 0) {
      assert st.free[i] in st.free && OwnerOk(g, st, LogOf(e.b)) && VbnOf(g, st, LogOf(e.b)) == LogVbn(g, st, e.b);
      assert ErasedFrom(st.flash, st.free[i], 0);
    }
  }

  /** Exactly page d has a new content. */
  lemma WriteResolves(g: Geometry, st: State, d: Pg, e: Pg, data: Data, c: Pg)
    requires Inv(g, st) && CanWrite(g, st, d, e) && IsPage(g, c)
    ensures Resolve(g, Written(g, st, d, e, data), c) == if c == d then data else Resolve(g, st, c)
  {
    SameVbns(g, st, Written(g, st, d, e, data));
    WriteCells(g, st, d, e, data);
    TargetErased(g, st, d, e);
    if c in st.hash {
      NothingThere(g, st, d, e, c);
    } else {
      assert TwoOwners(g, st, DataOf(c.b), LogOf(e.b)) && VbnOf(g, st, DataOf(c.b)) == DataVbn(st, c.b);
      assert VbnOf(g, st, LogOf(e.b)) == LogVbn(g, st, e.b);
    }
  }

  /** One page has the content data, and the others are as they were. */
  ghost predicate OnePage(g: Geometry, st: State, st': State, d: Pg, data: Data) {
    forall c {:trigger Resolve(g, st', c)} | IsPage(g, c) ::
        Resolve(g, st', c) == if c == d then data else Resolve(g, st, c)
  }

  lemma WriteKeeps(g: Geometry, st: State, d: Pg, e: Pg, data: Data)
    requires Inv(g, st) && CanWrite(g, st, d, e)
    ensures var st' := Written(g, st, d, e, data);
      Inv(g, st') && OnePage(g, st, st', d, data) && Blocks(g, st') == Blocks(g, st)
  {
    var st' := Written(g, st, d, e, data);
    SameTablesKeepOwners(g, st, st');
    WriteKeepsFree(g, st, d, e, data);
    WriteKeepsHash(g, st, d, e, data);
    WriteKeepsSw(g, st, d, e, data);
    WriteKeepsLogs(g, st, d, e, data);
    forall c | IsPage(g, c) ensures Resolve(g, st', c) == if c == d then data else Resolve(g, st, c) {
      WriteResolves(g, st, d, e, data, c);
    }
  }

  // ---- the write position of the random log area --------------------------------------------------------------------

  /** The position moves on in the open block. */
  lemma AdvanceKeeps(g: Geometry, st: State)
    requires Inv(g, st) && st.rwFree > 0 && st.cur.o + 2 != g.pages
    ensures var st' := st.(cur := Pg(OpenBlock(g, st.cur), OpenPage(g, st.cur)));
      && Inv(g, st') && SameContent(g, st, st') && Blocks(g, st') == Blocks(g, st)
      && 0 < st'.cur.b < g.used && st'.cur.o < Last(g)
      && CellAt(st.flash, LogVbn(g, st, st'.cur.b), st'.cur.o) == Erased
  {
    var st' := st.(cur := Pg(OpenBlock(g, st.cur), OpenPage(g, st.cur)));
    SameTablesKeepOwners(g, st, st');
    SameVbns(g, st, st');
    forall d | d in st.hash ensures EntryOk(g, st', d, st.hash[d]) && RwNamed(g, st', d, st.hash[d]) {
      assert EntryOk(g, st, d, st.hash[d]) && RwNamed(g, st, d, st.hash[d]);
    }
    forall b: nat | OpenBlock(g, st'.cur) < b < g.used && st.rwFree > 1 ensures Fresh(g, st', b) {
      assert Fresh(g, st, b);
    }
    IsolOnly(g, st, st');
    assert FreeErased(st');
    RingStays(g, st, st');
  }

  /** The names of the open block are written when it is full. */
  ghost function Closed(g: Geometry, st: State): State {
    st.(flash := Program(st.flash, LogVbn(g, st, st.cur.b), Last(g), Names(st.rwList)))
  }

  lemma CloseCells(g: Geometry, st: State)
    requires Inv(g, st) && st.rwFree > 0 && st.cur.o + 2 == g.pages
    ensures 0 < st.cur.b < g.used && CellAt(st.flash, LogVbn(g, st, st.cur.b), Last(g)) == Erased
    ensures LogVbn(g, st, st.cur.b) < g.blocks
    ensures forall v: nat, o: nat ::
      CellAt(Closed(g, st).flash, v, o) ==
          (if v == LogVbn(g, st, st.cur.b) && o == Last(g) then Names(st.rwList) else CellAt(st.flash, v, o))
  {
    assert OwnerOk(g, st, LogOf(st.cur.b)) && VbnOf(g, st, LogOf(st.cur.b)) == LogVbn(g, st, st.cur.b);
    ProgramCells(st.flash, LogVbn(g, st, st.cur.b), Last(g), Names(st.rwList));
  }

  /** The other blocks do not notice. */
  lemma CloseLeaves(g: Geometry, st: State, st': State, o: Owner)
    requires Inv(g, st) && st.rwFree > 0 && st.cur.o + 2 == g.pages && st'.flash == Closed(g, st).flash
    requires IsOwner(g, o) && o != LogOf(st.cur.b)
    ensures Untouched(g, st, st', VbnOf(g, st, o))
  {
    CloseCells(g, st);
    assert TwoOwners(g, st, o, LogOf(st.cur.b)) && VbnOf(g, st, LogOf(st.cur.b)) == LogVbn(g, st, st.cur.b);
  }

  /** After closing, the position is full (and garbage collection follows) or in the next block, which is unused. */
  ghost predicate Reopened(g: Geometry, st: State, st': State) {
    && st' == Closed(g, st).(rwFree := st'.rwFree, cur := st'.cur) && st'.rwFree + 1 == st.rwFree
    && (if st'.rwFree == 0 then st'.cur == st.cur else st'.cur == Pg(st.cur.b + 1, 0))
  }

  lemma CloseKeepsEntry(g: Geometry, st: State, st': State, d: Pg)
    requires Inv(g, st) && st.rwFree > 0 && st.cur.o + 2 == g.pages && Reopened(g, st, st') && d in st.hash
    ensures EntryOk(g, st', d, st.hash[d]) && RwNamed(g, st', d, st.hash[d]) && IsolNamed(g, st', d, st.hash[d])
  {
    var b := st.hash[d].b;
    SameVbns(g, st, st');
    CloseCells(g, st);
    assert EntryOk(g, st, d, st.hash[d]) && RwNamed(g, st, d, st.hash[d]) && IsolNamed(g, st, d, st.hash[d]);
    assert VbnOf(g, st, LogOf(b)) == LogVbn(g, st, b);
    if b != st.cur.b {
      CloseLeaves(g, st, st', LogOf(b));
      assert st.rwFree > 1 && b == st.cur.b + 1 ==> Fresh(g, st, b);
    }
  }

  lemma CloseKeepsAreas(g: Geometry, st: State, st': State)
    requires Inv(g, st) && st.rwFree > 0 && st.cur.o + 2 == g.pages && Reopened(g, st, st')
    ensures SwOk(g, st') && RwOk(g, st') && IsolOk(g, st') && IsolOpen(g, st') && FreeErased(st')
  {
    SameVbns(g, st, st');
    CloseCells(g, st);
    forall d | d in st.hash ensures RwNamed(g, st', d, st.hash[d]) && IsolNamed(g, st', d, st.hash[d]) {
      CloseKeepsEntry(g, st, st', d);
    }
    CloseLeaves(g, st, st', LogOf(0));
    assert VbnOf(g, st, LogOf(0)) == LogVbn(g, st, 0);
    forall o | 0 <= o < st.swNext ensures Pg(st.swLbn, o) in st'.hash {
      assert Pg(st.swLbn, o) in st.hash;
    }
    forall b: nat | st.cur.b < b < g.used && st.rwFree > 1 ensures Fresh(g, st', b) {
      assert Fresh(g, st, b) && VbnOf(g, st, LogOf(b)) == LogVbn(g, st, b);
      CloseLeaves(g, st, st', LogOf(b));
    }
    forall b: nat | g.logs <= b < g.logs + g.isols ensures Ascending(g, st', b) {
      assert Ascending(g, st, b) && VbnOf(g, st, LogOf(b)) == LogVbn(g, st, b);
      CloseLeaves(g, st, st', LogOf(b));
    }
    if st.isolCur != NOWHERE {
      assert VbnOf(g, st, LogOf(g.logs + st.isolCur.b)) == LogVbn(g, st, g.logs + st.isolCur.b);
      CloseLeaves(g, st, st', LogOf(g.logs + st.isolCur.b));
    }
    forall b: nat, p: nat | g.logs <= b < g.logs + g.isols
      ensures CellAt(st'.flash, LogVbn(g, st', b), p) == CellAt(st.flash, LogVbn(g, st, b), p)
    {
      assert VbnOf(g, st, LogOf(b)) == LogVbn(g, st, b);
      CloseLeaves(g, st, st', LogOf(b));
    }
    RingStays(g, st, st');
    CloseKeepsFree(g, st, st');
    if st'.rwFree > 0 {
      assert Fresh(g, st', st.cur.b + 1);
    }
  }

  lemma CloseKeepsFree(g: Geometry, st: State, st': State)
    requires Inv(g, st) && st.rwFree > 0 && st.cur.o + 2 == g.pages && Reopened(g, st, st')
    ensures FreeErased(st')
  {
    CloseCells(g, st);
    forall i | 0 <= i < |st'.free| ensures ErasedFrom(st'.flash, st'.free[i], 0) {
      assert st.free[i] in st.free && ErasedFrom(st.flash, st.free[i], 0);
      assert OwnerOk(g, st, LogOf(st.cur.b)) && VbnOf(g, st, LogOf(st.cur.b)) == LogVbn(g, st, st.cur.b);
    }
  }

  lemma CloseKeeps(g: Geometry, st: State, st': State)
    requires Inv(g, st) && st.rwFree > 0 && st.cur.o + 2 == g.pages && Reopened(g, st, st')
    ensures Inv(g, st') && SameContent(g, st, st') && Blocks(g, st') == Blocks(g, st)
    ensures st'.rwFree > 0 ==> st'.cur.b < g.used && CellAt(st'.flash, LogVbn(g, st', st'.cur.b), 0) == Erased
  {
    SameTablesKeepOwners(g, st, st');
    SameVbns(g, st, st');
    CloseCells(g, st);
    CloseKeepsAreas(g, st, st');
    forall d | d in st.hash ensures EntryOk(g, st', d, st.hash[d]) {
      CloseKeepsEntry(g, st, st', d);
    }
    forall d | IsPage(g, d) ensures Resolve(g, st', d) == Resolve(g, st, d) {
      if d in st.hash {
        CloseKeepsEntry(g, st, st', d);
        assert EntryOk(g, st, d, st.hash[d]);
      } else {
        CloseLeaves(g, st, st', DataOf(d.b));
        assert VbnOf(g, st, DataOf(d.b)) == DataVbn(st, d.b);
      }
    }
    if st'.rwFree > 0 {
      assert Fresh(g, st, st.cur.b + 1) && VbnOf(g, st, LogOf(st.cur.b + 1)) == LogVbn(g, st, st.cur.b + 1);
      CloseLeaves(g, st, st', LogOf(st.cur.b + 1));
    }
  }

  /** Closing a random log block leaves the isolation area, and so the turns of garbage collection, alone. */
  lemma CloseKeepsTurns(g: Geometry, st: State, st': State)
    requires Inv(g, st) && st.rwFree == 1 && st.cur.o + 2 == g.pages && Reopened(g, st, st')
    ensures CanFree(g, st') <==> CanFree(g, st)
  {
    IsolsDiffer(g, st, st);
    forall b: nat, p: nat | InIsolArea(g, b)
      ensures CellAt(st'.flash, LogVbn(g, st, b), p) == CellAt(st.flash, LogVbn(g, st, b), p)
    {
      CloseCells(g, st);
      CloseLeaves(g, st, st', LogOf(b));
      assert VbnOf(g, st, LogOf(b)) == LogVbn(g, st, b);
    }
    RoomStays(g, st, st');
    SameCanFree(g, st, st');
  }
}
