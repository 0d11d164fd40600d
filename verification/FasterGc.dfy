/** Garbage collection of the random log area: what its loop has done at each step, and what that amounts to. */
module FasterGc {
  import opened FasterState
  import opened FasterMerge
  import opened FasterIsol

  // ---- the list of the victim block ---------------------------------------------------------------------------------

  /** The list names exactly the valid pages of log block b from page o on. */
  ghost predicate Filtered(g: Geometry, st: State, list: seq<Pg>, b: nat, o: nat) {
    && |list| == g.pages
    && (forall p {:trigger list[p]} | o <= p < g.pages - 1 && list[p] != NOWHERE ::
         list[p] in st.hash && st.hash[list[p]] == Pg(b, p))
    && (forall d {:trigger FilteredAt(list, d, st.hash[d])} | d in st.hash && st.hash[d].b == b && o <= st.hash[d].o ::
         FilteredAt(list, d, st.hash[d]))
  }

  ghost predicate FilteredAt(list: seq<Pg>, d: Pg, e: Pg) { Listed(list, e.o, d) }

  /** The valid pages among the first o, and those of them with a second-chance bit. */
  ghost function ValidBefore(list: seq<Pg>, o: nat): nat
    requires o <= |list|
  {
    if o == 0 then 0 else ValidBefore(list, o - 1) + if list[o - 1] != NOWHERE then 1 else 0
  }

  ghost function ChancedBefore(list: seq<Pg>, sc: set<Pg>, b: nat, o: nat): nat
    requires o <= |list|
  {
    if o == 0 then 0
    else ChancedBefore(list, sc, b, o - 1) + if list[o - 1] != NOWHERE && Pg(b, o - 1) in sc then 1 else 0
  }

  lemma {:induction false} FewValid(list: seq<Pg>, sc: set<Pg>, b: nat, o: nat)
    requires o <= |list|
    ensures ChancedBefore(list, sc, b, o) <= ValidBefore(list, o) <= o
  {
    if o == 0 {
    } else {
      FewValid(list, sc, b, o - 1);
    }
  }

  /** The log area entries as the victim block b is compacted into block t: o pages have been looked at, and k moved. */
  ghost predicate InNew(g: Geometry, st0: State, st: State, b: nat, t: nat, k: nat, d: Pg)
    requires d in st.hash
  {
    var e := st.hash[d];
    e.b == b && e.o < k && CellAt(st.flash, t, e.o).Page? && Read(g, CellAt(st.flash, t, e.o)) == Resolve(g, st0, d)
        && Listed(st.rwList, e.o, d)
  }

  ghost predicate InIsol(g: Geometry, st0: State, st: State, d: Pg)
    requires d in st.hash
  {
    var e := st.hash[d];
    && g.logs <= e.b < g.logs + g.isols && e.o < Last(g) && CellAt(st.flash, LogVbn(g, st0, e.b), e.o).Page?
    && Read(g, CellAt(st.flash, LogVbn(g, st0, e.b), e.o)) == Resolve(g, st0, d)
  }

  ghost predicate GcEntry(g: Geometry, st0: State, st: State, b: nat, t: nat, o: nat, k: nat, d: Pg) {
    && d in st.hash && d in st0.hash
    && if st0.hash[d].b == b && st0.hash[d].o < o
         then InNew(g, st0, st, b, t, k, d) || InIsol(g, st0, st, d)
         else st.hash[d] == st0.hash[d]
  }

  /** Only erased cells of isolation blocks have been programmed, besides block t. */
  ghost predicate OnlyIsol(g: Geometry, st0: State, st: State, t: nat, v: nat, o: nat) {
    v != t ==>
      || CellAt(st.flash, v, o) == CellAt(st0.flash, v, o)
      || (CellAt(st0.flash, v, o) == Erased && exists c :: g.logs <= c < g.logs + g.isols && LogVbn(g, st0, c) == v)
  }

  ghost predicate GcMid(g: Geometry, st0: State, st: State, b: nat, t: nat, o: nat, k: nat) {
    && Shape(g, st0) && |st.flash| == g.blocks && (forall v | 0 <= v < g.blocks :: |st.flash[v]| == g.pages)
    && st == st0.(hash := st.hash, vc := st.hash.Keys, sc := st.sc, flash := st.flash, rwList := st.rwList,
                  isolCur := st.isolCur, isolList := st.isolList, isolFree := st.isolFree,
                  free := st0.free[1..])
    && st.hash.Keys == st0.hash.Keys && |st.rwList| == |st.isolList| == g.pages && k <= o < g.pages && 0 < b < g.used
    && (forall d {:trigger GcEntry(g, st0, st, b, t, o, k, d)} | d in st0.hash :: GcEntry(g, st0, st, b, t, o, k, d))
    && (forall d, e | d in st.hash && e in st.hash && d != e :: st.hash[d] != st.hash[e])
    && IsolOk(g, st)
    && (forall v: nat, p: nat {:trigger OnlyIsol(g, st0, st, t, v, p)} :: OnlyIsol(g, st0, st, t, v, p))
    && ErasedFrom(st.flash, t, k) && t == st0.free[0]
    && Filtered(g, st, st.rwList, b, o)
  }

  // ---- what stays out of the way ------------------------------------------------------------------------------------

  /** The cells of blocks that are not in the isolation area, and not block t, stay as they are. */
  lemma NotIsolStays(g: Geometry, st0: State, st: State, b: nat, t: nat, o: nat, k: nat, v: nat)
    requires GcMid(g, st0, st, b, t, o, k) && v != t
    requires forall c | g.logs <= c < g.logs + g.isols :: LogVbn(g, st0, c) != v
    ensures forall p: nat :: CellAt(st.flash, v, p) == CellAt(st0.flash, v, p)
  {
    forall p: nat ensures CellAt(st.flash, v, p) == CellAt(st0.flash, v, p) {
      assert OnlyIsol(g, st0, st, t, v, p);
    }
  }

  lemma OwnerNotIsol(g: Geometry, st: State, o: Owner)
    requires BlocksOk(g, st) && IsOwner(g, o) && (o.LogOf? ==> o.i < g.logs) && g.Valid()
    ensures forall c | g.logs <= c < g.logs + g.isols :: LogVbn(g, st, c) != VbnOf(g, st, o)
  {
    forall c | g.logs <= c < g.logs + g.isols ensures LogVbn(g, st, c) != VbnOf(g, st, o) {
      assert TwoOwners(g, st, o, LogOf(c)) && VbnOf(g, st, LogOf(c)) == LogVbn(g, st, c);
    }
  }

  lemma FreeNotOwned(g: Geometry, st: State, v: nat)
    requires BlocksOk(g, st) && v in st.free
    ensures forall o | IsOwner(g, o) :: VbnOf(g, st, o) != v
  {
    forall o | IsOwner(g, o) ensures VbnOf(g, st, o) != v {
      assert OwnerOk(g, st, o);
    }
  }

  // ---- one step of the loop -----------------------------------------------------------------------------------------

  lemma GcStarts(g: Geometry, st: State, st': State, b: nat)
    requires Inv(g, st) && 0 < b < g.used && |st'.rwList| == g.pages
    requires st' == st.(rwList := st'.rwList, free := st.free[1..], sc := st'.sc) && Filtered(g, st, st'.rwList, b, 0)
    ensures GcMid(g, st, st', b, st.free[0], 0, 0)
  {
    assert ErasedFrom(st.flash, st.free[0], 0);
    forall d | d in st.hash ensures GcEntry(g, st, st', b, st.free[0], 0, 0, d) {
    }
    forall v: nat, p: nat ensures OnlyIsol(g, st, st', st.free[0], v, p) {
    }
    IsolOnly(g, st, st');
  }

  /** The isolation area does not depend on the random log area. */
  lemma IsolOnly(g: Geometry, st: State, st': State)
    requires IsolOk(g, st) && st'.hash == st.hash && st'.flash == st.flash && st'.isolCur == st.isolCur
    requires st'.isolList == st.isolList
    requires st'.vt == st.vt && st'.vtList == st.vtList && st'.isol == st.isol && st'.log == st.log
    ensures IsolOk(g, st')
  {
    forall d | d in st.hash ensures IsolNamed(g, st', d, st.hash[d]) {
      assert IsolNamed(g, st, d, st.hash[d]);
    }
    forall b: nat | g.logs <= b < g.logs + g.isols ensures Ascending(g, st', b) {
      assert Ascending(g, st, b) && LogVbn(g, st', b) == LogVbn(g, st, b);
    }
  }

  /** A page that is not valid is passed. */
  lemma GcSkip(g: Geometry, st0: State, st: State, st': State, b: nat, t: nat, o: nat, k: nat)
    requires GcMid(g, st0, st, b, t, o, k) && o + 1 < g.pages && st.rwList[o] == NOWHERE && NOWHERE !in st.hash
    requires st' == st.(sc := st'.sc)
    ensures GcMid(g, st0, st', b, t, o + 1, k)
  {
    forall d | d in st0.hash ensures GcEntry(g, st0, st', b, t, o + 1, k, d) {
      assert GcEntry(g, st0, st, b, t, o, k, d);
      assert st.hash[d] == Pg(b, o) ==> FilteredAt(st.rwList, d, st.hash[d]);
    }
    forall v: nat, p: nat ensures OnlyIsol(g, st0, st', t, v, p) {
      assert OnlyIsol(g, st0, st, t, v, p);
    }
    IsolOnly(g, st, st');
    forall d | d in st.hash && st.hash[d].b == b && o + 1 <= st.hash[d].o
      ensures FilteredAt(st'.rwList, d, st'.hash[d])
    {
      assert FilteredAt(st.rwList, d, st.hash[d]);
    }
  }

  /** Second-chance bits play no part in where pages are. */
  lemma BitsAreFree(g: Geometry, st0: State, st: State, b: nat, t: nat, o: nat, k: nat, sc: set<Pg>)
    requires GcMid(g, st0, st, b, t, o, k)
    ensures GcMid(g, st0, st.(sc := sc), b, t, o, k)
  {
    var st' := st.(sc := sc);
    forall d | d in st0.hash ensures GcEntry(g, st0, st', b, t, o, k, d) {
      assert GcEntry(g, st0, st, b, t, o, k, d);
    }
    forall v: nat, p: nat ensures OnlyIsol(g, st0, st', t, v, p) {
      assert OnlyIsol(g, st0, st, t, v, p);
    }
    IsolOnly(g, st, st');
    forall d | d in st.hash && st.hash[d].b == b && o <= st.hash[d].o ensures FilteredAt(st'.rwList, d, st'.hash[d]) {
      assert FilteredAt(st.rwList, d, st.hash[d]);
    }
  }

  // ---- moving a page ------------------------------------------------------------------------------------------------

  /** The page that the list names at o is where it was before the collection began. */
  lemma NamedIsOld(g: Geometry, st0: State, st: State, b: nat, t: nat, o: nat, k: nat)
    requires Inv(g, st0) && GcMid(g, st0, st, b, t, o, k) && o + 1 < g.pages && st.rwList[o] != NOWHERE
    ensures var d := st.rwList[o];
      && d in st.hash && d in st0.hash && st.hash[d] == Pg(b, o) && st0.hash[d] == Pg(b, o) && IsPage(g, d)
      && Read(g, CellAt(st.flash, LogVbn(g, st, b), o)) == Resolve(g, st0, d)
  {
    var d := st.rwList[o];
    assert GcEntry(g, st0, st, b, t, o, k, d) && EntryOk(g, st0, d, st0.hash[d]);
    OwnerNotIsol(g, st0, LogOf(b));
    assert t in st0.free;
    FreeNotOwned(g, st0, t);
    assert VbnOf(g, st0, LogOf(b)) == LogVbn(g, st0, b);
    NotIsolStays(g, st0, st, b, t, o, k, LogVbn(g, st0, b));
  }

  /** Only d was at page o of the victim block. */
  lemma OthersAsBefore(g: Geometry, st0: State, st: State, b: nat, t: nat, o: nat, k: nat, d: Pg, e: Pg)
    requires Inv(g, st0) && GcMid(g, st0, st, b, t, o, k) && d in st0.hash && st0.hash[d] == Pg(b, o) && e in st0.hash
    requires e != d
    ensures if st0.hash[e].b == b && st0.hash[e].o < o + 1 then InNew(g, st0, st, b, t, k, e) || InIsol(g, st0, st, e)
            else st.hash[e] == st0.hash[e]
    ensures st.hash[e].b == b ==> st.hash[e].o < k || o + 1 <= st.hash[e].o
  {
    assert GcEntry(g, st0, st, b, t, o, k, e);
    assert st0.hash[e] != st0.hash[d];
  }

  /** The isolation area does not notice what happens elsewhere. */
  lemma IsolElsewhere(g: Geometry, st: State, st': State)
    requires IsolOk(g, st) && SameLogs(st, st') && st'.isolCur == st.isolCur && st'.isolList == st.isolList
    requires st'.vt == st.vt && st'.vtList == st.vtList
    requires forall d | d in st'.hash :: st'.hash[d].b < g.logs || (d in st.hash && st'.hash[d] == st.hash[d])
    requires forall b: nat, p: nat | InIsolArea(g, b) ::
      CellAt(st'.flash, LogVbn(g, st, b), p) == CellAt(st.flash, LogVbn(g, st, b), p)
    requires forall d | d in st.hash && g.logs <= st.hash[d].b :: InIsolArea(g, st.hash[d].b)
    ensures IsolOk(g, st')
  {
    forall d | d in st'.hash ensures IsolNamed(g, st', d, st'.hash[d]) {
      if g.logs <= st'.hash[d].b {
        assert IsolNamed(g, st, d, st.hash[d]) && InIsolArea(g, st.hash[d].b);
      }
    }
    forall b: nat | g.logs <= b < g.logs + g.isols ensures Ascending(g, st', b) {
      assert Ascending(g, st, b) && LogVbn(g, st', b) == LogVbn(g, st, b) && InIsolArea(g, b);
    }
    assert st.isolCur != NOWHERE ==>
      InIsolArea(g, g.logs + st.isolCur.b)
      && LogVbn(g, st', g.logs + st.isolCur.b) == LogVbn(g, st, g.logs + st.isolCur.b);
  }

  /** The entries in the isolation area are for written pages, throughout. */
  lemma MidIsWritten(g: Geometry, st0: State, st: State, b: nat, t: nat, o: nat, k: nat)
    requires Inv(g, st0) && GcMid(g, st0, st, b, t, o, k)
    ensures IsolWritten(g, st) && IsolDistinct(g, st)
    ensures forall c: nat | InIsolArea(g, c) :: LogVbn(g, st, c) != t
  {
    assert t in st0.free;
    FreeNotOwned(g, st0, t);
    IsolsDiffer(g, st0, st);
    forall c: nat | InIsolArea(g, c) ensures LogVbn(g, st, c) != t {
      assert VbnOf(g, st0, LogOf(c)) == LogVbn(g, st, c);
    }
    forall d | d in st.hash ensures WrittenAt(g, st, st.hash[d]) {
      assert GcEntry(g, st0, st, b, t, o, k, d) && EntryOk(g, st0, d, st0.hash[d]);
      if g.logs <= st.hash[d].b && st.hash[d] == st0.hash[d] {
        assert OnlyIsol(g, st0, st, t, LogVbn(g, st0, st.hash[d].b), st.hash[d].o);
        assert LogVbn(g, st, st.hash[d].b) == LogVbn(g, st0, st.hash[d].b);
        assert VbnOf(g, st0, LogOf(st.hash[d].b)) == LogVbn(g, st0, st.hash[d].b);
      }
    }
  }

  /** The page gets a second chance: it moves to page k of the new block. */
  ghost function SecondChance(g: Geometry, st: State, b: nat, t: nat, k: nat, d: Pg, data: Data, sc: set<Pg>): State
    requires k < |st.rwList|
  {
    st.(hash := st.hash[d := Pg(b, k)], rwList := st.rwList[k := d], sc := sc,
        flash := Program(st.flash, t, k, Page(data)))
  }

  lemma MoveCells(g: Geometry, st: State, t: nat, k: nat, data: Data)
    requires t < |st.flash| && k < |st.flash[t]|
    ensures forall v: nat, p: nat ::
      CellAt(Program(st.flash, t, k, Page(data)), v, p) ==
      if v == t && p == k then Page(data) else CellAt(st.flash, v, p)
  {
    ProgramCells(st.flash, t, k, Page(data));
  }

  lemma MoveKeepsEntries(g: Geometry, st0: State, st: State, b: nat, t: nat, o: nat, k: nat, sc: set<Pg>)
    requires Inv(g, st0) && GcMid(g, st0, st, b, t, o, k) && o + 1 < g.pages && st.rwList[o] != NOWHERE && t < g.blocks
    ensures var d := st.rwList[o]; var st' := SecondChance(g, st, b, t, k, d, Resolve(g, st0, d), sc);
      && (forall e {:trigger GcEntry(g, st0, st', b, t, o + 1, k + 1, e)} | e in st0.hash ::
           GcEntry(g, st0, st', b, t, o + 1, k + 1, e))
  {
    var d := st.rwList[o];
    var next, k' := o + 1, k + 1;
    NamedIsOld(g, st0, st, b, t, o, k);
    var st' := SecondChance(g, st, b, t, k, d, Resolve(g, st0, d), sc);
    MoveCells(g, st, t, k, Resolve(g, st0, d));
    forall e | e in st0.hash ensures GcEntry(g, st0, st', b, t, next, k', e) {
      if e != d {
        OthersAsBefore(g, st0, st, b, t, o, k, d, e);
        InIsolStays(g, st0, st, b, t, o, k, e);
      }
    }
  }

  /** A page that has been isolated is not in the new block. */
  lemma InIsolStays(g: Geometry, st0: State, st: State, b: nat, t: nat, o: nat, k: nat, e: Pg)
    requires Inv(g, st0) && GcMid(g, st0, st, b, t, o, k) && e in st.hash
    ensures InIsol(g, st0, st, e) ==> LogVbn(g, st0, st.hash[e].b) != t
  {
    MidIsWritten(g, st0, st, b, t, o, k);
    assert InIsol(g, st0, st, e) ==>
      InIsolArea(g, st.hash[e].b) && LogVbn(g, st, st.hash[e].b) == LogVbn(g, st0, st.hash[e].b);
  }

  lemma MoveKeepsIndex(g: Geometry, st0: State, st: State, b: nat, t: nat, o: nat, k: nat, sc: set<Pg>)
    requires Inv(g, st0) && GcMid(g, st0, st, b, t, o, k) && o + 1 < g.pages && st.rwList[o] != NOWHERE
    ensures var st' := SecondChance(g, st, b, t, k, st.rwList[o], Resolve(g, st0, st.rwList[o]), sc);
      && (forall d, e | d in st'.hash && e in st'.hash && d != e :: st'.hash[d] != st'.hash[e])
      && Filtered(g, st', st'.rwList, b, o + 1)
  {
    var d := st.rwList[o];
    var st' := SecondChance(g, st, b, t, k, d, Resolve(g, st0, d), sc);
    NamedIsOld(g, st0, st, b, t, o, k);
    forall e | e in st.hash && e != d
      ensures st'.hash[e] == st.hash[e] && (st.hash[e].b == b ==> st.hash[e].o < k || o + 1 <= st.hash[e].o)
    {
      OthersAsBefore(g, st0, st, b, t, o, k, d, e);
    }
    forall e | e in st'.hash && st'.hash[e].b == b && o + 1 <= st'.hash[e].o
      ensures FilteredAt(st'.rwList, e, st'.hash[e])
    {
      assert e != d && FilteredAt(st.rwList, e, st.hash[e]);
    }
    forall p | o + 1 <= p < g.pages - 1 && st'.rwList[p] != NOWHERE
      ensures st'.rwList[p] in st'.hash && st'.hash[st'.rwList[p]] == Pg(b, p)
    {
      assert st'.rwList[p] == st.rwList[p] && st.hash[st.rwList[p]] == Pg(b, p);
    }
  }

  lemma MoveIsOnlyThere(g: Geometry, st0: State, st: State, b: nat, t: nat, o: nat, k: nat, data: Data)
    requires GcMid(g, st0, st, b, t, o, k) && t < |st.flash| && k < |st.flash[t]|
    ensures forall v: nat, p: nat {:trigger CellAt(st0.flash, v, p)} ::
      OnlyIsol(g, st0, st.(flash := Program(st.flash, t, k, Page(data))), t, v, p)
  {
    MoveCells(g, st, t, k, data);
    forall v: nat, p: nat ensures OnlyIsol(g, st0, st.(flash := Program(st.flash, t, k, Page(data))), t, v, p) {
      assert OnlyIsol(g, st0, st, t, v, p);
    }
  }

  /** The tables are as before otherwise. */
  lemma MoveKeepsTables(g: Geometry, st0: State, st: State, b: nat, t: nat, o: nat, k: nat, d: Pg, data: Data,
                        sc: set<Pg>)
    requires GcMid(g, st0, st, b, t, o, k) && o + 1 < g.pages && d in st.hash && t < g.blocks
    ensures var st' := SecondChance(g, st, b, t, k, d, data, sc);
      && |st'.flash| == g.blocks && (forall v | 0 <= v < g.blocks :: |st'.flash[v]| == g.pages)
      && st' == st0.(hash := st'.hash, vc := st'.hash.Keys, sc := sc, flash := st'.flash, rwList := st'.rwList,
                     isolCur := st.isolCur, isolList := st.isolList, isolFree := st.isolFree, free := st0.free[1..])
      && st'.hash.Keys == st.hash.Keys && |st'.rwList| == g.pages && ErasedFrom(st'.flash, t, k + 1)
  {
    var st' := SecondChance(g, st, b, t, k, d, data, sc);
    MoveCells(g, st, t, k, data);
    assert st'.hash.Keys == st.hash.Keys;
  }

  lemma MoveKeepsMid(g: Geometry, st0: State, st: State, b: nat, t: nat, o: nat, k: nat, sc: set<Pg>)
    requires Inv(g, st0) && GcMid(g, st0, st, b, t, o, k) && o + 1 < g.pages && st.rwList[o] != NOWHERE
    ensures GcMid(g, st0, SecondChance(g, st, b, t, k, st.rwList[o], Resolve(g, st0, st.rwList[o]), sc), b, t, o + 1,
      k + 1)
    ensures t < g.blocks && CellAt(st.flash, t, k) == Erased
  {
    var d := st.rwList[o];
    var st' := SecondChance(g, st, b, t, k, d, Resolve(g, st0, d), sc);
    NamedIsOld(g, st0, st, b, t, o, k);
    MidIsWritten(g, st0, st, b, t, o, k);
    MoveCells(g, st, t, k, Resolve(g, st0, d));
    MoveKeepsEntries(g, st0, st, b, t, o, k, sc);
    MoveKeepsIndex(g, st0, st, b, t, o, k, sc);
    forall e | e in st.hash && g.logs <= st.hash[e].b ensures InIsolArea(g, st.hash[e].b) {
      assert WrittenAt(g, st, st.hash[e]);
    }
    IsolElsewhere(g, st, st');
    MoveIsOnlyThere(g, st0, st, b, t, o, k, Resolve(g, st0, d));
    MoveKeepsTables(g, st0, st, b, t, o, k, d, Resolve(g, st0, d), sc);
  }

  // ---- moving a page to the isolation area --------------------------------------------------------------------------

  /** One erased cell of the isolation area is programmed. */
  lemma ProgramKeepsEntry(g: Geometry, st0: State, st: State, st': State, b: nat, t: nat, o: nat, k: nat, e: Pg, v: nat,
                          p: nat, c: Cell)
    requires Inv(g, st0) && GcMid(g, st0, st, b, t, o, k) && e in st.hash && e in st'.hash && st'.hash[e] == st.hash[e]
    requires st'.rwList == st.rwList
    requires v != t && CellAt(st.flash, v, p) == Erased && v < |st.flash| && p < |st.flash[v]|
    requires st'.flash == Program(st.flash, v, p, c)
    ensures InNew(g, st0, st, b, t, k, e) ==> InNew(g, st0, st', b, t, k, e)
    ensures InIsol(g, st0, st, e) ==> InIsol(g, st0, st', e)
  {
    ProgramCells(st.flash, v, p, c);
  }

  lemma ProgramKeepsOnly(g: Geometry, st0: State, st: State, st': State, b: nat, t: nat, o: nat, k: nat, i: nat, p: nat,
                         c: Cell)
    requires GcMid(g, st0, st, b, t, o, k) && InIsolArea(g, i)
    requires var v := LogVbn(g, st0, i);
      v != t && v < |st.flash| && p < |st.flash[v]| && CellAt(st.flash, v, p) == Erased
          && st'.flash == Program(st.flash, v, p, c)
    ensures forall v: nat, q: nat {:trigger OnlyIsol(g, st0, st', t, v, q)} :: OnlyIsol(g, st0, st', t, v, q)
    ensures ErasedFrom(st'.flash, t, k)
  {
    ProgramCells(st.flash, LogVbn(g, st0, i), p, c);
    forall v: nat, q: nat ensures OnlyIsol(g, st0, st', t, v, q) {
      assert OnlyIsol(g, st0, st, t, v, q);
    }
  }

  /** The names of the full isolation block are written. */
  lemma CloseKeepsMid(g: Geometry, st0: State, st: State, b: nat, t: nat, o: nat, k: nat)
    requires Inv(g, st0) && GcMid(g, st0, st, b, t, o, k) && st.isolCur != NOWHERE && st.isolCur.o + 1 == Last(g)
    requires CellAt(st.flash, LogVbn(g, st, g.logs + st.isolCur.b), Last(g)) == Erased
    ensures GcMid(g, st0, NamesWritten(g, st), b, t, o, k)
  {
    var i := g.logs + st.isolCur.b;
    var v := LogVbn(g, st, i);
    var st' := NamesWritten(g, st);
    assert InIsolArea(g, i) && LogVbn(g, st0, i) == v;
    MidIsWritten(g, st0, st, b, t, o, k);
    CloseKeepsIsol(g, st, st');
    ProgramKeepsOnly(g, st0, st, st', b, t, o, k, i, Last(g), Names(st.isolList));
    forall e | e in st0.hash ensures GcEntry(g, st0, st', b, t, o, k, e) {
      assert GcEntry(g, st0, st, b, t, o, k, e);
      ProgramKeepsEntry(g, st0, st, st', b, t, o, k, e, v, Last(g), Names(st.isolList));
    }
    forall d | d in st'.hash && st'.hash[d].b == b && o <= st'.hash[d].o
      ensures FilteredAt(st'.rwList, d, st'.hash[d])
    {
      assert FilteredAt(st.rwList, d, st.hash[d]);
    }
  }

  /** The page is cold: it moves to the isolation area. The entries are still good. */
  lemma IsolateKeepsEntries(g: Geometry, st0: State, st: State, b: nat, t: nat, o: nat, k: nat, c: nat, q: nat)
    requires Inv(g, st0) && GcMid(g, st0, st, b, t, o, k) && o + 1 < g.pages && st.rwList[o] != NOWHERE
    requires CanAppend(g, st, c, q)
    ensures var st' := Appended(g, st, st.rwList[o], c, q, Resolve(g, st0, st.rwList[o]));
      forall e {:trigger GcEntry(g, st0, st', b, t, o + 1, k, e)} | e in st0.hash ::
          GcEntry(g, st0, st', b, t, o + 1, k, e)
  {
    var d, next := st.rwList[o], o + 1;
    var data := Resolve(g, st0, d);
    var st' := Appended(g, st, d, c, q, data);
    NamedIsOld(g, st0, st, b, t, o, k);
    MidIsWritten(g, st0, st, b, t, o, k);
    AppendCells(g, st, d, c, q, data);
    assert InIsolArea(g, g.logs + c) && LogVbn(g, st0, g.logs + c) == LogVbn(g, st, g.logs + c);
    forall e | e in st0.hash ensures GcEntry(g, st0, st', b, t, next, k, e) {
      if e != d {
        OthersAsBefore(g, st0, st, b, t, o, k, d, e);
        ProgramKeepsEntry(g, st0, st, st', b, t, o, k, e, LogVbn(g, st, g.logs + c), q, Page(data));
      }
    }
  }

  /** The page to write is nobody's. */
  lemma AppendIsNew(g: Geometry, st0: State, st: State, b: nat, t: nat, o: nat, k: nat, c: nat, q: nat)
    requires Inv(g, st0) && GcMid(g, st0, st, b, t, o, k) && CanAppend(g, st, c, q)
    ensures forall e | e in st.hash :: st.hash[e] != Pg(g.logs + c, q)
  {
    MidIsWritten(g, st0, st, b, t, o, k);
    forall e | e in st.hash ensures st.hash[e] != Pg(g.logs + c, q) {
      assert WrittenAt(g, st, st.hash[e]);
    }
  }

  lemma IsolateKeepsIndex(g: Geometry, st0: State, st: State, b: nat, t: nat, o: nat, k: nat, c: nat, q: nat)
    requires Inv(g, st0) && GcMid(g, st0, st, b, t, o, k) && o + 1 < g.pages && st.rwList[o] != NOWHERE
    requires CanAppend(g, st, c, q)
    ensures var st' := Appended(g, st, st.rwList[o], c, q, Resolve(g, st0, st.rwList[o]));
      && (forall d, e | d in st'.hash && e in st'.hash && d != e :: st'.hash[d] != st'.hash[e])
      && Filtered(g, st', st'.rwList, b, o + 1)
  {
    var d := st.rwList[o];
    var st' := Appended(g, st, d, c, q, Resolve(g, st0, d));
    AppendIsNew(g, st0, st, b, t, o, k, c, q);
    forall e | e in st'.hash && st'.hash[e].b == b && o + 1 <= st'.hash[e].o
      ensures FilteredAt(st'.rwList, e, st'.hash[e])
    {
      assert e != d && FilteredAt(st.rwList, e, st.hash[e]);
    }
    forall p | o + 1 <= p < g.pages - 1 && st'.rwList[p] != NOWHERE
      ensures st'.rwList[p] in st'.hash && st'.hash[st'.rwList[p]] == Pg(b, p)
    {
      assert st.hash[st.rwList[p]] == Pg(b, p);
    }
  }

  lemma IsolateKeepsTables(g: Geometry, st0: State, st: State, b: nat, t: nat, o: nat, k: nat, d: Pg, c: nat, q: nat,
                           data: Data)
    requires GcMid(g, st0, st, b, t, o, k) && d in st.hash && q < g.pages
    ensures var st' := Appended(g, st, d, c, q, data);
      && |st'.flash| == g.blocks && (forall v | 0 <= v < g.blocks :: |st'.flash[v]| == g.pages)
      && st' == st0.(hash := st'.hash, vc := st'.hash.Keys, sc := st.sc, flash := st'.flash, rwList := st.rwList,
                     isolCur := st'.isolCur, isolList := st'.isolList, isolFree := st.isolFree, free := st0.free[1..])
      && st'.hash.Keys == st.hash.Keys && |st'.isolList| == g.pages
  {
    var st' := Appended(g, st, d, c, q, data);
    assert st'.hash.Keys == st.hash.Keys;
  }

  lemma IsolateKeepsMid(g: Geometry, st0: State, st: State, b: nat, t: nat, o: nat, k: nat, c: nat, q: nat)
    requires Inv(g, st0) && GcMid(g, st0, st, b, t, o, k) && o + 1 < g.pages && st.rwList[o] != NOWHERE
    requires CanAppend(g, st, c, q)
    ensures GcMid(g, st0, Appended(g, st, st.rwList[o], c, q, Resolve(g, st0, st.rwList[o])), b, t, o + 1, k)
  {
    var d := st.rwList[o];
    var st' := Appended(g, st, d, c, q, Resolve(g, st0, d));
    NamedIsOld(g, st0, st, b, t, o, k);
    MidIsWritten(g, st0, st, b, t, o, k);
    assert InIsolArea(g, g.logs + c) && LogVbn(g, st0, g.logs + c) == LogVbn(g, st, g.logs + c);
    AppendKeepsIsol(g, st, d, c, q, Resolve(g, st0, d));
    IsolateKeepsEntries(g, st0, st, b, t, o, k, c, q);
    IsolateKeepsIndex(g, st0, st, b, t, o, k, c, q);
    ProgramKeepsOnly(g, st0, st, st', b, t, o, k, g.logs + c, q, Page(Resolve(g, st0, d)));
    IsolateKeepsTables(g, st0, st, b, t, o, k, d, c, q, Resolve(g, st0, d));
  }

  lemma IsolateStep(g: Geometry, st0: State, st: State, b: nat, t: nat, o: nat, k: nat, c: nat, q: nat)
    requires Inv(g, st0) && GcMid(g, st0, st, b, t, o, k) && o + 1 < g.pages && st.rwList[o] != NOWHERE
    requires CanAppend(g, st, c, q)
    ensures GcMid(g, st0, Appended(g, st, st.rwList[o], c, q, Read(g, CellAt(st.flash, LogVbn(g, st, b), o))), b, t,
      o + 1, k)
  {
    NamedIsOld(g, st0, st, b, t, o, k);
    IsolateKeepsMid(g, st0, st, b, t, o, k, c, q);
  }

  // ---- the end of the collection ------------------------------------------------------------------------------------

  /** The new block becomes log block b, and is the one to write to; the old one is erased and given back. */
  ghost function AfterGc(g: Geometry, st0: State, st: State, b: nat, k: nat): State
    requires Shape(g, st0) && 0 < b < |st0.log|
  {
    st.(log := st0.log[b := st0.free[0]], free := st0.free[1..] + [st0.log[b]], flash := Erase(g, st.flash, st0.log[b]),
        rwFree := st0.rwFree + 1, cur := if k > 0 then Pg(b, k - 1) else Pg(b - 1, g.pages - 1))
  }

  lemma GcOwners(g: Geometry, st0: State, st: State, b: nat, t: nat, k: nat)
    requires Inv(g, st0) && GcMid(g, st0, st, b, t, g.pages - 1, k)
    ensures var st' := AfterGc(g, st0, st, b, k);
      Shape(g, st') && BlocksOk(g, st') && Blocks(g, st') == Blocks(g, st0) && LogVbn(g, st', b) == t
    ensures t in st0.free && t < g.blocks && st0.log[b] < g.blocks && st0.log[b] != t
  {
    var st' := AfterGc(g, st0, st, b, k);
    assert OwnerOk(g, st0, LogOf(b)) && VbnOf(g, st0, LogOf(b)) == st0.log[b] && t in st0.free;
    assert Replaced(g, st0, st', LogOf(b));
    ReplaceKeepsOwners(g, st0, st', LogOf(b));
    ReplaceKeepsBlocks(g, st0, st', LogOf(b));
  }

  /** The cells of a block that is neither the old nor the new one. */
  lemma GcLeaves(g: Geometry, st0: State, st: State, b: nat, t: nat, k: nat, v: nat)
    requires Inv(g, st0) && GcMid(g, st0, st, b, t, g.pages - 1, k) && v != st0.log[b]
    ensures forall p: nat :: CellAt(AfterGc(g, st0, st, b, k).flash, v, p) == CellAt(st.flash, v, p)
  {
    GcOwners(g, st0, st, b, t, k);
    EraseCells(g, st.flash, st0.log[b]);
  }

  /** A block of an owner outside the isolation area, other than log block b, is as it was before the collection. */
  lemma GcLeavesOwner(g: Geometry, st0: State, st: State, b: nat, t: nat, k: nat, o: Owner)
    requires Inv(g, st0) && GcMid(g, st0, st, b, t, g.pages - 1, k) && IsOwner(g, o) && o != LogOf(b)
    requires (o.LogOf? ==> o.i < g.logs)
    ensures VbnOf(g, AfterGc(g, st0, st, b, k), o) == VbnOf(g, st0, o)
    ensures Untouched(g, st0, AfterGc(g, st0, st, b, k), VbnOf(g, st0, o))
  {
    GcOwners(g, st0, st, b, t, k);
    FreeNotOwned(g, st0, t);
    OwnerNotIsol(g, st0, o);
    assert TwoOwners(g, st0, o, LogOf(b)) && VbnOf(g, st0, LogOf(b)) == st0.log[b];
    NotIsolStays(g, st0, st, b, t, g.pages - 1, k, VbnOf(g, st0, o));
    GcLeaves(g, st0, st, b, t, k, VbnOf(g, st0, o));
  }

  lemma GcLeavesIsol(g: Geometry, st0: State, st: State, b: nat, t: nat, k: nat, c: nat)
    requires Inv(g, st0) && GcMid(g, st0, st, b, t, g.pages - 1, k) && InIsolArea(g, c)
    ensures LogVbn(g, AfterGc(g, st0, st, b, k), c) == LogVbn(g, st, c) == LogVbn(g, st0, c)
    ensures forall p: nat ::
      CellAt(AfterGc(g, st0, st, b, k).flash, LogVbn(g, st, c), p) == CellAt(st.flash, LogVbn(g, st, c), p)
  {
    assert TwoOwners(g, st0, LogOf(c), LogOf(b)) && VbnOf(g, st0, LogOf(b)) == st0.log[b];
    assert VbnOf(g, st0, LogOf(c)) == LogVbn(g, st, c);
    GcLeaves(g, st0, st, b, t, k, LogVbn(g, st, c));
  }

  /** A page that was in the victim block: its entry is good, and leads to the same content. */
  lemma MovedIsFound(g: Geometry, st0: State, st: State, b: nat, t: nat, k: nat, d: Pg)
    requires Inv(g, st0) && GcMid(g, st0, st, b, t, g.pages - 1, k) && k < g.pages - 1 && d in st0.hash
    requires st0.hash[d].b == b
    ensures var st' := AfterGc(g, st0, st, b, k);
      EntryOk(g, st', d, st'.hash[d]) && RwNamed(g, st', d, st'.hash[d]) && Resolve(g, st', d) == Resolve(g, st0, d)
  {
    assert GcEntry(g, st0, st, b, t, g.pages - 1, k, d) && EntryOk(g, st0, d, st0.hash[d]);
    GcOwners(g, st0, st, b, t, k);
    if st.hash[d].b == b {
      GcLeaves(g, st0, st, b, t, k, t);
    } else {
      GcLeavesIsol(g, st0, st, b, t, k, st.hash[d].b);
    }
  }

  /** A page elsewhere in the log area. */
  lemma UnmovedIsFound(g: Geometry, st0: State, st: State, b: nat, t: nat, k: nat, d: Pg)
    requires Inv(g, st0) && GcMid(g, st0, st, b, t, g.pages - 1, k) && d in st0.hash && st0.hash[d].b != b
    requires st0.rwFree == 0
    ensures var st' := AfterGc(g, st0, st, b, k);
      EntryOk(g, st', d, st'.hash[d]) && RwNamed(g, st', d, st'.hash[d]) && Resolve(g, st', d) == Resolve(g, st0, d)
  {
    var e := st0.hash[d];
    assert GcEntry(g, st0, st, b, t, g.pages - 1, k, d) && EntryOk(g, st0, d, e) && RwNamed(g, st0, d, e);
    if e.b < g.logs {
      GcLeavesOwner(g, st0, st, b, t, k, LogOf(e.b));
      assert VbnOf(g, st0, LogOf(e.b)) == LogVbn(g, st0, e.b);
      assert VbnOf(g, AfterGc(g, st0, st, b, k), LogOf(e.b)) == LogVbn(g, AfterGc(g, st0, st, b, k), e.b);
    } else {
      GcLeavesIsol(g, st0, st, b, t, k, e.b);
      MidIsWritten(g, st0, st, b, t, g.pages - 1, k);
      assert InIsolArea(g, e.b);
      assert OnlyIsol(g, st0, st, t, LogVbn(g, st0, e.b), e.o);
    }
  }

  lemma GcKeepsPage(g: Geometry, st0: State, st: State, b: nat, t: nat, k: nat, d: Pg)
    requires Inv(g, st0) && GcMid(g, st0, st, b, t, g.pages - 1, k) && k < g.pages - 1 && IsPage(g, d)
    requires st0.rwFree == 0
    ensures Resolve(g, AfterGc(g, st0, st, b, k), d) == Resolve(g, st0, d)
  {
    if d in st0.hash {
      if st0.hash[d].b == b {
        MovedIsFound(g, st0, st, b, t, k, d);
      } else {
        UnmovedIsFound(g, st0, st, b, t, k, d);
      }
    } else {
      GcLeavesOwner(g, st0, st, b, t, k, DataOf(d.b));
      assert VbnOf(g, st0, DataOf(d.b)) == DataVbn(st0, d.b);
    }
  }

  lemma GcFree(g: Geometry, st0: State, st: State, b: nat, t: nat, k: nat)
    requires Inv(g, st0) && GcMid(g, st0, st, b, t, g.pages - 1, k)
    ensures FreeErased(AfterGc(g, st0, st, b, k))
  {
    var st' := AfterGc(g, st0, st, b, k);
    GcOwners(g, st0, st, b, t, k);
    EraseCells(g, st.flash, st0.log[b]);
    forall i | 0 <= i < |st'.free| ensures ErasedFrom(st'.flash, st'.free[i], 0) {
      if i < |st0.free| - 1 {
        var v := st0.free[i + 1];
        assert st'.free[i] == v && v in st0.free && ErasedFrom(st0.flash, v, 0) && v != t;
        FreeNotOwned(g, st0, v);
        forall c | g.logs <= c < g.logs + g.isols ensures LogVbn(g, st0, c) != v {
          assert VbnOf(g, st0, LogOf(c)) == LogVbn(g, st0, c);
        }
        NotIsolStays(g, st0, st, b, t, g.pages - 1, k, v);
      }
    }
  }

  lemma GcAreas(g: Geometry, st0: State, st: State, b: nat, t: nat, k: nat)
    requires Inv(g, st0) && GcMid(g, st0, st, b, t, g.pages - 1, k) && k < g.pages - 1 && st0.rwFree == 0
    requires IsolOpen(g, st)
    ensures var st' := AfterGc(g, st0, st, b, k); SwOk(g, st') && RwOk(g, st') && IsolOk(g, st') && IsolOpen(g, st')
  {
    var st' := AfterGc(g, st0, st, b, k);
    GcOwners(g, st0, st, b, t, k);
    GcLeavesOwner(g, st0, st, b, t, k, LogOf(0));
    GcLeaves(g, st0, st, b, t, k, t);
    forall d | d in st'.hash ensures RwNamed(g, st', d, st'.hash[d]) {
      if st0.hash[d].b == b {
        MovedIsFound(g, st0, st, b, t, k, d);
      } else {
        UnmovedIsFound(g, st0, st, b, t, k, d);
      }
    }
    forall o | 0 <= o < st'.swNext ensures Pg(st'.swLbn, o) in st'.hash {
      assert Pg(st0.swLbn, o) in st0.hash;
    }
    GcIsol(g, st0, st, b, t, k);
  }

  lemma GcIsol(g: Geometry, st0: State, st: State, b: nat, t: nat, k: nat)
    requires Inv(g, st0) && GcMid(g, st0, st, b, t, g.pages - 1, k) && IsolOpen(g, st)
    ensures IsolOk(g, AfterGc(g, st0, st, b, k)) && IsolOpen(g, AfterGc(g, st0, st, b, k))
  {
    var st' := AfterGc(g, st0, st, b, k);
    GcIsolNames(g, st0, st, b, t, k);
    forall c: nat | g.logs <= c < g.logs + g.isols ensures Ascending(g, st', c) {
      GcLeavesIsol(g, st0, st, b, t, k, c);
      assert Ascending(g, st, c);
    }
    if st.isolCur != NOWHERE {
      GcLeavesIsol(g, st0, st, b, t, k, g.logs + st.isolCur.b);
    }
    forall c: nat, p: nat | g.logs <= c < g.logs + g.isols
      ensures CellAt(st'.flash, LogVbn(g, st', c), p) == CellAt(st.flash, LogVbn(g, st, c), p)
    {
      GcLeavesIsol(g, st0, st, b, t, k, c);
    }
    RingStays(g, st, st');
  }

  lemma GcIsolNames(g: Geometry, st0: State, st: State, b: nat, t: nat, k: nat)
    requires Inv(g, st0) && GcMid(g, st0, st, b, t, g.pages - 1, k)
    ensures var st' := AfterGc(g, st0, st, b, k);
      forall d {:trigger IsolNamed(g, st', d, st.hash[d])} | d in st.hash :: IsolNamed(g, st', d, st.hash[d])
  {
    var st' := AfterGc(g, st0, st, b, k);
    MidIsWritten(g, st0, st, b, t, g.pages - 1, k);
    forall d | d in st.hash ensures IsolNamed(g, st', d, st.hash[d]) {
      assert IsolNamed(g, st, d, st.hash[d]) && WrittenAt(g, st, st.hash[d]);
      if g.logs <= st.hash[d].b {
        GcLeavesIsol(g, st0, st, b, t, k, st.hash[d].b);
      }
    }
  }

  /** Garbage collection changes no content, keeps the invariant, and loses no block. */
  lemma GcKeeps(g: Geometry, st0: State, st: State, b: nat, t: nat, k: nat)
    requires Inv(g, st0) && GcMid(g, st0, st, b, t, g.pages - 1, k) && k < g.pages - 1 && st0.rwFree == 0
    requires IsolOpen(g, st)
    ensures var st' := AfterGc(g, st0, st, b, k);
      Inv(g, st') && SameContent(g, st0, st') && Blocks(g, st') == Blocks(g, st0)
  {
    var st' := AfterGc(g, st0, st, b, k);
    GcOwners(g, st0, st, b, t, k);
    GcFree(g, st0, st, b, t, k);
    GcAreas(g, st0, st, b, t, k);
    forall d | d in st'.hash ensures EntryOk(g, st', d, st'.hash[d]) {
      if st0.hash[d].b == b {
        MovedIsFound(g, st0, st, b, t, k, d);
      } else {
        UnmovedIsFound(g, st0, st, b, t, k, d);
      }
    }
    forall d | IsPage(g, d) ensures Resolve(g, st', d) == Resolve(g, st0, d) {
      GcKeepsPage(g, st0, st, b, t, k, d);
    }
  }

  // ---- the measure of progress --------------------------------------------------------------------------------------

  /** Random log block b has a page without a second-chance bit. */
  ghost predicate NotMarked(g: Geometry, sc: set<Pg>, b: nat)
  {
    0 < b < g.used && exists o: nat :: o < g.pages - 1 && Pg(b, o) !in sc
  }

  ghost function Unmarked(g: Geometry, sc: set<Pg>): set<nat> { set b: nat | b < g.used && NotMarked(g, sc, b) }

  lemma MarkingIsProgress(g: Geometry, sc: set<Pg>, sc': set<Pg>, b: nat)
    requires b in Unmarked(g, sc) && sc <= sc' && forall o: nat | o < g.pages - 1 :: Pg(b, o) in sc'
    ensures |Unmarked(g, sc')| < |Unmarked(g, sc)|
  {
    assert Unmarked(g, sc') <= Unmarked(g, sc) - {b};
    var rest := Unmarked(g, sc) - {b} - Unmarked(g, sc');
    assert Unmarked(g, sc) - {b} == Unmarked(g, sc') + rest;
  }

  lemma {:induction false} NoChance(list: seq<Pg>, sc: set<Pg>, b: nat, o: nat)
    requires o <= |list| && ChancedBefore(list, sc, b, o) == 0 && ValidBefore(list, o) == o
    ensures forall p: nat | p < o :: Pg(b, p) !in sc
  {
    if o == 0 {
    } else {
      FewValid(list, sc, b, o - 1);
      NoChance(list, sc, b, o - 1);
    }
  }

  lemma {:induction false} CountsStay(list: seq<Pg>, list': seq<Pg>, sc: set<Pg>, b: nat, o: nat)
    requires o <= |list| == |list'| && forall p | 0 <= p < o :: list'[p] == list[p]
    ensures ValidBefore(list', o) == ValidBefore(list, o)
    ensures ChancedBefore(list', sc, b, o) == ChancedBefore(list, sc, b, o)
  {
    if o == 0 {
    } else {
      CountsStay(list, list', sc, b, o - 1);
    }
  }

  /** The names in the last page of a victim block lead to all its valid pages. */
  lemma NamesLead(g: Geometry, st: State, b: nat, d: Pg)
    requires Inv(g, st) && st.rwFree == 0 && 0 < b < g.used && d in st.hash && st.hash[d].b == b
    ensures st.hash[d].o < g.pages - 1
    ensures Listed(ReadNames(g, CellAt(st.flash, LogVbn(g, st, b), Last(g))), st.hash[d].o, d)
  {
    assert RwNamed(g, st, d, st.hash[d]) && EntryOk(g, st, d, st.hash[d]);
  }

  lemma NowhereIsNoPage(g: Geometry, st: State)
    requires HashOk(g, st) && g.Valid()
    ensures NOWHERE !in st.hash
  {
    assert NOWHERE in st.hash ==> EntryOk(g, st, NOWHERE, st.hash[NOWHERE]);
  }

  /** Second-chance bits, lists that are not in use, and the write position of a full log area are not part of the
      content. */
  lemma MarkKeepsInv(g: Geometry, st: State, st': State)
    requires Inv(g, st) && st.rwFree == 0 && st' == st.(sc := st'.sc, rwList := st'.rwList, cur := st'.cur)
    requires |st'.rwList| == g.pages && st'.cur.o < g.pages && st'.cur.b < g.used
    ensures Inv(g, st') && SameContent(g, st, st') && Blocks(g, st') == Blocks(g, st)
  {
    SameTablesKeepOwners(g, st, st');
    SameVbns(g, st, st');
    forall d | d in st.hash ensures EntryOk(g, st', d, st.hash[d]) && RwNamed(g, st', d, st.hash[d]) {
      assert EntryOk(g, st, d, st.hash[d]) && RwNamed(g, st, d, st.hash[d]);
    }
    IsolOnly(g, st, st');
    RingStays(g, st, st');
    assert FreeErased(st');
  }

  /** The branch of garbage_collection that clears the second-chance bits of a block without valid pages is never taken:
      only valid pages are counted as having such a bit. */
  lemma ClearingBranchIsDead(list: seq<Pg>, sc: set<Pg>, b: nat, o: nat)
    requires o <= |list| && ValidBefore(list, o) == 0
    ensures ChancedBefore(list, sc, b, o) == 0
  {
    FewValid(list, sc, b, o);
  }

  /** With no valid page there is nothing to do. */
  lemma {:induction false} NothingToMove(g: Geometry, st0: State, st: State, b: nat, t: nat, o: nat)
    requires Inv(g, st0) && GcMid(g, st0, st, b, t, 0, 0) && o < g.pages && ValidBefore(st.rwList, o) == 0
    ensures GcMid(g, st0, st, b, t, o, 0)
  {
    if o == 0 {
    } else {
      NothingToMove(g, st0, st, b, t, o - 1);
      NowhereIsNoPage(g, st0);
      assert NOWHERE !in st0.hash.Keys;
      GcSkip(g, st0, st, st, b, t, o - 1, 0);
    }
  }
}
