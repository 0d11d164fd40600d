/** The three merges of FASTer: what their loops build, and that switching the tables then changes no content. */
module FasterMerge {
  import opened FasterState

  /** A block is erased. */
  function Erase(g: Geometry, flash: seq<seq<Cell>>, v: nat): seq<seq<Cell>> {
    if v < |flash| then flash[v := seq(g.pages, o => Erased)] else flash
  }

  function Program(flash: seq<seq<Cell>>, v: nat, o: nat, c: Cell): seq<seq<Cell>> {
    if v < |flash| && o < |flash[v]| then flash[v := flash[v][o := c]] else flash
  }

  lemma ProgramCells(flash: seq<seq<Cell>>, v: nat, o: nat, c: Cell)
    requires v < |flash| && o < |flash[v]|
    ensures forall w: nat, p: nat ::
      CellAt(Program(flash, v, o, c), w, p) == if w == v && p == o then c else CellAt(flash, w, p)
  {
  }

  lemma EraseCells(g: Geometry, flash: seq<seq<Cell>>, v: nat)
    requires v < |flash|
    ensures forall w: nat, p: nat :: CellAt(Erase(g, flash, v), w, p) == if w == v then Erased else CellAt(flash, w, p)
  {
  }

  // ---- block ownership ------------------------------------------------------------------------------------------

  /** Owner o takes the next free block, and gives its own to the ring. */
  ghost predicate Replaced(g: Geometry, st: State, st': State, o: Owner) {
    && Shape(g, st) && Shape(g, st') && IsOwner(g, o)
    && st'.free == st.free[1..] + [VbnOf(g, st, o)]
    && (forall p {:trigger VbnOf(g, st', p)} | IsOwner(g, p) ::
         VbnOf(g, st', p) == if p == o then st.free[0] else VbnOf(g, st, p))
    && (forall b | 0 <= b < |st.log| :: st'.log[b] == NONE <==> g.used <= b)
  }

  lemma ReplaceKeepsOwners(g: Geometry, st: State, st': State, o: Owner)
    requires BlocksOk(g, st) && Replaced(g, st, st', o)
    ensures BlocksOk(g, st')
  {
    assert OwnerOk(g, st, o);
    forall p | IsOwner(g, p) ensures OwnerOk(g, st', p) {
      assert OwnerOk(g, st, p) && TwoOwners(g, st, p, o);
      assert st.free[0] in st.free;
    }
    forall p, q | IsOwner(g, p) && IsOwner(g, q) ensures TwoOwners(g, st', p, q) {
      assert OwnerOk(g, st, p) && OwnerOk(g, st, q) && TwoOwners(g, st, p, q);
      assert st.free[0] in st.free;
    }
    forall i, j | 0 <= i < j < |st'.free| ensures st'.free[i] != st'.free[j] {
      assert i + 1 < |st.free| && st.free[i + 1] in st.free;
    }
  }

  /** No block is lost, and none appears. */
  lemma ReplaceKeepsBlocks(g: Geometry, st: State, st': State, o: Owner)
    requires BlocksOk(g, st) && Replaced(g, st, st', o)
    ensures Blocks(g, st') == Blocks(g, st)
  {
    forall v ensures HasOwner(g, st', v) <==> HasOwner(g, st, v) {
      if HasOwner(g, st, v) {
        if v in st.free {
          var i :| 0 <= i < |st.free| && st.free[i] == v;
          if i == 0 {
            assert VbnOf(g, st', o) == v;
          } else {
            assert st'.free[i - 1] == v;
          }
        } else {
          var p :| IsOwner(g, p) && VbnOf(g, st, p) == v;
          if p == o {
            assert st'.free[|st'.free| - 1] == v;
          } else {
            assert VbnOf(g, st', p) == v;
          }
        }
      }
      if HasOwner(g, st', v) {
        if v in st'.free {
          var i :| 0 <= i < |st'.free| && st'.free[i] == v;
          assert i < |st'.free| - 1 ==> st.free[i + 1] == v;
          assert i == |st'.free| - 1 ==> VbnOf(g, st, o) == v;
        } else {
          var p :| IsOwner(g, p) && VbnOf(g, st', p) == v;
          assert p == o ==> v == st.free[0];
          assert p != o ==> VbnOf(g, st, p) == v;
        }
      }
    }
  }

  /** Two owners exchange their blocks. */
  ghost predicate Exchanged(g: Geometry, st: State, st': State, o: Owner, p: Owner) {
    && Shape(g, st) && Shape(g, st') && IsOwner(g, o) && IsOwner(g, p) && o != p && st'.free == st.free
    && (forall q {:trigger VbnOf(g, st', q)} | IsOwner(g, q) ::
          VbnOf(g, st', q) == VbnOf(g, st, if q == o then p else if q == p then o else q))
    && (forall b | 0 <= b < |st.log| :: st'.log[b] == NONE <==> g.used <= b)
  }

  lemma ExchangeKeepsOwners(g: Geometry, st: State, st': State, o: Owner, p: Owner)
    requires BlocksOk(g, st) && Exchanged(g, st, st', o, p)
    ensures BlocksOk(g, st') && Blocks(g, st') == Blocks(g, st)
  {
    forall q | IsOwner(g, q) ensures OwnerOk(g, st', q) {
      assert OwnerOk(g, st, if q == o then p else if q == p then o else q);
    }
    forall q, r | IsOwner(g, q) && IsOwner(g, r) ensures TwoOwners(g, st', q, r) {
      assert TwoOwners(g, st, if q == o then p else if q == p then o else q,
                              if r == o then p else if r == p then o else r);
    }
    forall v ensures HasOwner(g, st', v) <==> HasOwner(g, st, v) {
      if q :| IsOwner(g, q) && VbnOf(g, st, q) == v {
        assert VbnOf(g, st', if q == o then p else if q == p then o else q) == v;
      }
      if q :| IsOwner(g, q) && VbnOf(g, st', q) == v {
        assert VbnOf(g, st, if q == o then p else if q == p then o else q) == v;
      }
    }
  }

  // ---- what the loops build --------------------------------------------------------------------------------------

  /** Entry e is kept by a merge into block t: it is not in that block. */
  ghost predicate KeptEntry(g: Geometry, st: State, h: map<Pg, Pg>, t: nat, d: Pg) {
    d in st.hash && d in h && h[d] == st.hash[d] && LogVbn(g, st, h[d].b) != t
  }

  /** The page of block t for sub-page o is the newest copy, unless that stays in the log area. */
  ghost predicate BuiltAt(g: Geometry, st: State, h: map<Pg, Pg>, f: seq<seq<Cell>>, lbn: nat, t: nat, o: nat) {
    Pg(lbn, o) in h || Read(g, CellAt(f, t, o)) == Resolve(g, st, Pg(lbn, o))
  }

  /** After the loop of a merge of data block lbn into block t: h and f are the hash table and flash then. */
  ghost predicate Rebuilt(g: Geometry, st: State, h: map<Pg, Pg>, f: seq<seq<Cell>>, lbn: nat, t: nat) {
    && |f| == g.blocks && (forall v | 0 <= v < g.blocks :: |f[v]| == g.pages)
    && (forall v: nat, o: nat | v != t :: CellAt(f, v, o) == CellAt(st.flash, v, o))
    && (forall d {:trigger KeptEntry(g, st, h, t, d)} | d in h :: KeptEntry(g, st, h, t, d))
    && (forall d {:trigger d in h} | d in st.hash && d.b != lbn :: d in h)
    && (forall o: nat {:trigger BuiltAt(g, st, h, f, lbn, t, o)} | o < g.pages :: BuiltAt(g, st, h, f, lbn, t, o))
  }

  /** The state after a merge: block t is the data block, and the old one has been erased. */
  ghost predicate Switched(g: Geometry, st: State, st': State, h: map<Pg, Pg>, f: seq<seq<Cell>>, lbn: nat, t: nat) {
    && Shape(g, st) && Shape(g, st') && lbn < g.datas && st'.hash == h && st'.vc == h.Keys
    && st'.data == st.data[lbn := t] && st'.flash == Erase(g, f, st.data[lbn])
    && (forall b: nat | LogVbn(g, st, b) != t && IsOwner(g, LogOf(b)) :: LogVbn(g, st', b) == LogVbn(g, st, b))
  }

  /** The merged page of lbn is found in the new data block; every other page is found where it was. */
  lemma MergeKeepsPage(g: Geometry, st: State, st': State, h: map<Pg, Pg>, f: seq<seq<Cell>>, lbn: nat, t: nat, d: Pg)
    requires BlocksOk(g, st) && HashOk(g, st) && Rebuilt(g, st, h, f, lbn, t) && Switched(g, st, st', h, f, lbn, t)
    requires IsPage(g, d) && t != st.data[lbn] && forall b | 0 <= b < g.datas :: st.data[b] != t
    ensures Resolve(g, st', d) == Resolve(g, st, d)
  {
    var was := st.data[lbn];
    assert OwnerOk(g, st, DataOf(lbn)) && VbnOf(g, st, DataOf(lbn)) == was;
    EraseCells(g, f, was);
    if d in h {
      var b := h[d].b;
      assert KeptEntry(g, st, h, t, d) && EntryOk(g, st, d, st.hash[d]);
      assert TwoOwners(g, st, LogOf(b), DataOf(lbn));
      assert CellAt(f, LogVbn(g, st, b), h[d].o) == CellAt(st.flash, LogVbn(g, st, b), h[d].o);
    } else if d.b != lbn {
      assert TwoOwners(g, st, DataOf(d.b), DataOf(lbn)) && DataVbn(st, d.b) == st.data[d.b];
      assert CellAt(f, st.data[d.b], d.o) == CellAt(st.flash, st.data[d.b], d.o);
    } else {
      assert BuiltAt(g, st, h, f, lbn, t, d.o);
    }
  }

  /** A merge changes the content of no page. */
  lemma MergeKeepsContent(g: Geometry, st: State, st': State, h: map<Pg, Pg>, f: seq<seq<Cell>>, lbn: nat, t: nat)
    requires BlocksOk(g, st) && HashOk(g, st) && Rebuilt(g, st, h, f, lbn, t) && Switched(g, st, st', h, f, lbn, t)
    requires t != st.data[lbn] && forall b | 0 <= b < g.datas :: st.data[b] != t
    ensures SameContent(g, st, st')
  {
    forall d | IsPage(g, d) ensures Resolve(g, st', d) == Resolve(g, st, d) {
      MergeKeepsPage(g, st, st', h, f, lbn, t, d);
    }
  }

  // ---- the invariant after a merge -------------------------------------------------------------------------------

  /** The tables after a full merge into the first free block. */
  ghost function AfterFull(g: Geometry, st: State, h: map<Pg, Pg>, f: seq<seq<Cell>>, lbn: nat): State
    requires Shape(g, st) && lbn < g.datas
  {
    var was := st.data[lbn];
    st.(data := st.data[lbn := st.free[0]], free := st.free[1..] + [was], hash := h, vc := h.Keys,
        flash := Erase(g, f, was))
  }

  /** The tables after a switch or partial merge of the sequential log block. */
  ghost function AfterSwitch(g: Geometry, st: State, h: map<Pg, Pg>, f: seq<seq<Cell>>): State
    requires Shape(g, st) && st.swLbn < g.datas
  {
    var was := st.data[st.swLbn];
    st.(data := st.data[st.swLbn := st.log[0]], log := st.log[0 := st.free[0]], free := st.free[1..] + [was],
        hash := h, vc := h.Keys, flash := Erase(g, f, was), swLbn := NONE, swNext := 0)
  }

  /** A cell of a block that the merge does not touch. */
  ghost predicate Untouched(g: Geometry, st: State, st': State, v: nat) {
    forall o: nat :: CellAt(st'.flash, v, o) == CellAt(st.flash, v, o)
  }

  lemma MergeTouchesTwo(g: Geometry, st: State, st': State, h: map<Pg, Pg>, f: seq<seq<Cell>>, lbn: nat, t: nat, v: nat)
    requires BlocksOk(g, st) && Rebuilt(g, st, h, f, lbn, t) && Shape(g, st) && lbn < g.datas
    requires st'.flash == Erase(g, f, st.data[lbn])
    requires v != t && v != st.data[lbn]
    ensures Untouched(g, st, st', v)
  {
    assert OwnerOk(g, st, DataOf(lbn)) && VbnOf(g, st, DataOf(lbn)) == st.data[lbn];
    EraseCells(g, f, st.data[lbn]);
  }

  lemma FreeStaysErased(g: Geometry, st: State, st': State, h: map<Pg, Pg>, f: seq<seq<Cell>>, lbn: nat, t: nat)
    requires BlocksOk(g, st) && FreeErased(st) && Rebuilt(g, st, h, f, lbn, t) && Shape(g, st) && lbn < g.datas
    requires st'.flash == Erase(g, f, st.data[lbn]) && st'.free == st.free[1..] + [st.data[lbn]]
    requires t == st.free[0] || t !in st.free
    ensures FreeErased(st')
  {
    assert OwnerOk(g, st, DataOf(lbn)) && VbnOf(g, st, DataOf(lbn)) == st.data[lbn];
    EraseCells(g, f, st.data[lbn]);
    forall i | 0 <= i < |st'.free| ensures ErasedFrom(st'.flash, st'.free[i], 0) {
      if i < |st.free| - 1 {
        assert st'.free[i] == st.free[i + 1] && st.free[i + 1] in st.free && ErasedFrom(st.flash, st.free[i + 1], 0);
        MergeTouchesTwo(g, st, st', h, f, lbn, t, st.free[i + 1]);
      }
    }
  }

  /** An entry that stays is as good as before. */
  lemma EntryStays(g: Geometry, st: State, st': State, h: map<Pg, Pg>, f: seq<seq<Cell>>, lbn: nat, t: nat, d: Pg)
    requires BlocksOk(g, st) && HashOk(g, st) && RwOk(g, st) && IsolOk(g, st)
    requires Rebuilt(g, st, h, f, lbn, t) && Switched(g, st, st', h, f, lbn, t) && d in h
    requires (st'.swLbn == st.swLbn && st'.swNext == st.swNext) || h[d].b != 0
    requires st'.(data := st.data, log := st.log, free := st.free, hash := st.hash, vc := st.vc, flash := st.flash,
      swLbn := st.swLbn, swNext := st.swNext) == st
    ensures EntryOk(g, st', d, h[d]) && RwNamed(g, st', d, h[d]) && IsolNamed(g, st', d, h[d])
  {
    var b := h[d].b;
    assert KeptEntry(g, st, h, t, d) && EntryOk(g, st, d, st.hash[d]) && RwNamed(g, st, d, st.hash[d]);
    assert IsolNamed(g, st, d, st.hash[d]);
    assert TwoOwners(g, st, LogOf(b), DataOf(lbn)) && VbnOf(g, st, LogOf(b)) == LogVbn(g, st, b);
    assert VbnOf(g, st, DataOf(lbn)) == st.data[lbn];
    MergeTouchesTwo(g, st, st', h, f, lbn, t, LogVbn(g, st, b));
  }

  lemma HashStaysOk(g: Geometry, st: State, st': State, h: map<Pg, Pg>, f: seq<seq<Cell>>, lbn: nat, t: nat)
    requires Rebuilt(g, st, h, f, lbn, t) && HashOk(g, st) && st'.hash == h && st'.vc == h.Keys
    requires forall d {:trigger EntryOk(g, st', d, h[d])} | d in h :: EntryOk(g, st', d, h[d])
    ensures HashOk(g, st')
  {
    forall d, e | d in h && e in h && d != e ensures h[d] != h[e] {
      assert KeptEntry(g, st, h, t, d) && KeptEntry(g, st, h, t, e);
    }
  }

  /** The blocks of the log and isolation area other than t are as they were. */
  lemma LogUntouched(g: Geometry, st: State, st': State, h: map<Pg, Pg>, f: seq<seq<Cell>>, lbn: nat, t: nat, b: nat)
    requires BlocksOk(g, st) && Rebuilt(g, st, h, f, lbn, t) && Switched(g, st, st', h, f, lbn, t)
    requires IsOwner(g, LogOf(b)) && LogVbn(g, st, b) != t
    ensures LogVbn(g, st', b) == LogVbn(g, st, b) && Untouched(g, st, st', LogVbn(g, st, b))
  {
    assert TwoOwners(g, st, LogOf(b), DataOf(lbn)) && VbnOf(g, st, LogOf(b)) == LogVbn(g, st, b);
    assert VbnOf(g, st, DataOf(lbn)) == st.data[lbn];
    MergeTouchesTwo(g, st, st', h, f, lbn, t, LogVbn(g, st, b));
  }

  lemma LogAreasStayOk(g: Geometry, st: State, st': State, h: map<Pg, Pg>, f: seq<seq<Cell>>, lbn: nat, t: nat)
    requires BlocksOk(g, st) && RwOk(g, st) && IsolOk(g, st) && IsolOpen(g, st) && Rebuilt(g, st, h, f, lbn, t)
    requires Switched(g, st, st', h, f, lbn, t)
    requires st'.(data := st.data, log := st.log, free := st.free, hash := st.hash, vc := st.vc, flash := st.flash,
      swLbn := st.swLbn, swNext := st.swNext) == st
    requires forall b | 0 < b && IsOwner(g, LogOf(b)) :: LogVbn(g, st, b) != t
    requires forall d {:trigger RwNamed(g, st', d, h[d])} | d in h :: RwNamed(g, st', d, h[d])
    requires forall d {:trigger IsolNamed(g, st', d, h[d])} | d in h :: IsolNamed(g, st', d, h[d])
    ensures RwOk(g, st') && IsolOk(g, st') && IsolOpen(g, st')
  {
    if st.rwFree > 0 {
      LogUntouched(g, st, st', h, f, lbn, t, OpenBlock(g, st.cur));
    }
    if st.rwFree > 1 {
      forall b: nat | OpenBlock(g, st.cur) < b < g.used ensures Fresh(g, st', b) {
        LogUntouched(g, st, st', h, f, lbn, t, b);
        assert Fresh(g, st, b);
      }
    }
    forall b: nat | g.logs <= b < g.logs + g.isols ensures Ascending(g, st', b) {
      LogUntouched(g, st, st', h, f, lbn, t, b);
      assert Ascending(g, st, b);
    }
    if st.isolCur != NOWHERE {
      LogUntouched(g, st, st', h, f, lbn, t, g.logs + st.isolCur.b);
    }
    forall b: nat, p: nat | g.logs <= b < g.logs + g.isols
      ensures CellAt(st'.flash, LogVbn(g, st', b), p) == CellAt(st.flash, LogVbn(g, st, b), p)
    {
      LogUntouched(g, st, st', h, f, lbn, t, b);
    }
    RingStays(g, st, st');
  }

  /** Block t of a merge belongs to no data block. */
  lemma TargetIsNotData(g: Geometry, st: State, t: nat)
    requires BlocksOk(g, st) && Shape(g, st) && (t == st.free[0] || t == LogVbn(g, st, 0))
    ensures forall b | 0 <= b < g.datas :: st.data[b] != t
  {
    forall b | 0 <= b < g.datas ensures st.data[b] != t {
      assert OwnerOk(g, st, DataOf(b)) && TwoOwners(g, st, DataOf(b), LogOf(0));
      assert VbnOf(g, st, DataOf(b)) == st.data[b] && VbnOf(g, st, LogOf(0)) == LogVbn(g, st, 0);
      assert st.free[0] in st.free;
    }
  }

  // ---- the full merge --------------------------------------------------------------------------------------------

  lemma FullKeepsOwners(g: Geometry, st: State, h: map<Pg, Pg>, f: seq<seq<Cell>>, lbn: nat)
    requires Inv(g, st) && lbn < g.datas && Rebuilt(g, st, h, f, lbn, st.free[0])
    ensures Shape(g, AfterFull(g, st, h, f, lbn)) && BlocksOk(g, AfterFull(g, st, h, f, lbn))
    ensures Blocks(g, AfterFull(g, st, h, f, lbn)) == Blocks(g, st)
    ensures Switched(g, st, AfterFull(g, st, h, f, lbn), h, f, lbn, st.free[0])
  {
    var st' := AfterFull(g, st, h, f, lbn);
    assert OwnerOk(g, st, DataOf(lbn)) && VbnOf(g, st, DataOf(lbn)) == st.data[lbn];
    assert Replaced(g, st, st', DataOf(lbn));
    ReplaceKeepsOwners(g, st, st', DataOf(lbn));
    ReplaceKeepsBlocks(g, st, st', DataOf(lbn));
  }

  lemma FullKeepsSw(g: Geometry, st: State, h: map<Pg, Pg>, f: seq<seq<Cell>>, lbn: nat)
    requires Inv(g, st) && lbn < g.datas && lbn != st.swLbn && Rebuilt(g, st, h, f, lbn, st.free[0])
    ensures SwOk(g, AfterFull(g, st, h, f, lbn))
  {
    FullKeepsOwners(g, st, h, f, lbn);
    assert OwnerOk(g, st, LogOf(0)) && VbnOf(g, st, LogOf(0)) == LogVbn(g, st, 0) && st.free[0] in st.free;
    LogUntouched(g, st, AfterFull(g, st, h, f, lbn), h, f, lbn, st.free[0], 0);
    forall o | 0 <= o < st.swNext ensures Pg(st.swLbn, o) in h {
      assert Pg(st.swLbn, o) in st.hash;
    }
  }

  /** A full merge changes no content, keeps the invariant, and loses no block. */
  lemma FullMergeKeeps(g: Geometry, st: State, h: map<Pg, Pg>, f: seq<seq<Cell>>, lbn: nat)
    requires Inv(g, st) && lbn < g.datas && lbn != st.swLbn && Rebuilt(g, st, h, f, lbn, st.free[0])
    ensures var st' := AfterFull(g, st, h, f, lbn);
      Inv(g, st') && SameContent(g, st, st') && Blocks(g, st') == Blocks(g, st)
  {
    var st', t := AfterFull(g, st, h, f, lbn), st.free[0];
    FullKeepsOwners(g, st, h, f, lbn);
    FullKeepsSw(g, st, h, f, lbn);
    TargetIsNotData(g, st, t);
    MergeKeepsContent(g, st, st', h, f, lbn, t);
    FreeStaysErased(g, st, st', h, f, lbn, t);
    forall d | d in h ensures EntryOk(g, st', d, h[d]) && RwNamed(g, st', d, h[d]) && IsolNamed(g, st', d, h[d]) {
      EntryStays(g, st, st', h, f, lbn, t, d);
    }
    HashStaysOk(g, st, st', h, f, lbn, t);
    forall b | 0 < b && IsOwner(g, LogOf(b)) ensures LogVbn(g, st, b) != t {
      assert OwnerOk(g, st, LogOf(b)) && VbnOf(g, st, LogOf(b)) == LogVbn(g, st, b) && st.free[0] in st.free;
    }
    LogAreasStayOk(g, st, st', h, f, lbn, t);
  }

  // ---- the switch and the partial merge --------------------------------------------------------------------------

  lemma SwitchKeepsOwners(g: Geometry, st: State, h: map<Pg, Pg>, f: seq<seq<Cell>>)
    requires Inv(g, st) && st.swLbn < g.datas && Rebuilt(g, st, h, f, st.swLbn, LogVbn(g, st, 0))
    ensures Shape(g, AfterSwitch(g, st, h, f)) && BlocksOk(g, AfterSwitch(g, st, h, f))
    ensures Blocks(g, AfterSwitch(g, st, h, f)) == Blocks(g, st)
    ensures Switched(g, st, AfterSwitch(g, st, h, f), h, f, st.swLbn, LogVbn(g, st, 0))
  {
    var lbn, st' := st.swLbn, AfterSwitch(g, st, h, f);
    var mid := st'.(data := st.data[lbn := st.free[0]], log := st.log);
    assert OwnerOk(g, st, DataOf(lbn)) && VbnOf(g, st, DataOf(lbn)) == st.data[lbn];
    assert Replaced(g, st, mid, DataOf(lbn));
    ReplaceKeepsOwners(g, st, mid, DataOf(lbn));
    ReplaceKeepsBlocks(g, st, mid, DataOf(lbn));
    assert st.free[0] < g.blocks;
    assert Exchanged(g, mid, st', DataOf(lbn), LogOf(0));
    ExchangeKeepsOwners(g, mid, st', DataOf(lbn), LogOf(0));
    forall b: nat | LogVbn(g, st, b) != LogVbn(g, st, 0) && IsOwner(g, LogOf(b))
      ensures LogVbn(g, st', b) == LogVbn(g, st, b)
    {
    }
  }

  /** The new sequential log block is an erased one. */
  lemma SwitchKeepsSw(g: Geometry, st: State, h: map<Pg, Pg>, f: seq<seq<Cell>>)
    requires Inv(g, st) && st.swLbn < g.datas && Rebuilt(g, st, h, f, st.swLbn, LogVbn(g, st, 0))
    ensures SwOk(g, AfterSwitch(g, st, h, f))
  {
    var t := st.free[0];
    assert t in st.free && OwnerOk(g, st, LogOf(0)) && OwnerOk(g, st, DataOf(st.swLbn));
    assert VbnOf(g, st, LogOf(0)) == LogVbn(g, st, 0) && VbnOf(g, st, DataOf(st.swLbn)) == st.data[st.swLbn];
    MergeTouchesTwo(g, st, AfterSwitch(g, st, h, f), h, f, st.swLbn, LogVbn(g, st, 0), t);
    assert ErasedFrom(st.flash, t, 0);
  }

  /** A switch or a partial merge changes no content, keeps the invariant, and loses no block. */
  lemma SwitchMergeKeeps(g: Geometry, st: State, h: map<Pg, Pg>, f: seq<seq<Cell>>)
    requires Inv(g, st) && st.swLbn < g.datas && Rebuilt(g, st, h, f, st.swLbn, LogVbn(g, st, 0))
    ensures var st' := AfterSwitch(g, st, h, f);
      Inv(g, st') && SameContent(g, st, st') && Blocks(g, st') == Blocks(g, st)
  {
    var st', lbn, t := AfterSwitch(g, st, h, f), st.swLbn, LogVbn(g, st, 0);
    SwitchKeepsOwners(g, st, h, f);
    SwitchKeepsSw(g, st, h, f);
    TargetIsNotData(g, st, t);
    MergeKeepsContent(g, st, st', h, f, lbn, t);
    assert OwnerOk(g, st, LogOf(0)) && VbnOf(g, st, LogOf(0)) == t;
    FreeStaysErased(g, st, st', h, f, lbn, t);
    forall d | d in h ensures EntryOk(g, st', d, h[d]) && RwNamed(g, st', d, h[d]) && IsolNamed(g, st', d, h[d]) {
      assert KeptEntry(g, st, h, t, d);
      EntryStays(g, st, st', h, f, lbn, t, d);
    }
    HashStaysOk(g, st, st', h, f, lbn, t);
    forall b | 0 < b && IsOwner(g, LogOf(b)) ensures LogVbn(g, st, b) != t {
      assert TwoOwners(g, st, LogOf(b), LogOf(0)) && VbnOf(g, st, LogOf(b)) == LogVbn(g, st, b);
    }
    LogAreasStayOk(g, st, st', h, f, lbn, t);
  }

  // ---- the loops, step by step -----------------------------------------------------------------------------------

  /** Sub-page o has been dealt with. */
  ghost predicate DealtWith(g: Geometry, st: State, h: map<Pg, Pg>, f: seq<seq<Cell>>, lbn: nat, t: nat, o: nat) {
    && BuiltAt(g, st, h, f, lbn, t, o)
    && (Pg(lbn, o) in h ==> LogVbn(g, st, h[Pg(lbn, o)].b) != t)
  }

  /** The sub-pages before n have been dealt with. The first m pages of block t were there before. */
  ghost predicate Building(g: Geometry, st: State, h: map<Pg, Pg>, f: seq<seq<Cell>>, lbn: nat, t: nat, n: nat, m: nat)
  {
    && |f| == g.blocks && (forall v | 0 <= v < g.blocks :: |f[v]| == g.pages) && t < g.blocks && n <= g.pages
    && (forall v: nat, o: nat | v != t || o < m :: CellAt(f, v, o) == CellAt(st.flash, v, o))
    && (forall o: nat {:trigger CellAt(f, t, o)} | n <= o && m <= o :: CellAt(f, t, o) == Erased)
    && (forall d | d in h :: d in st.hash && h[d] == st.hash[d])
    && (forall d {:trigger d in h} | d in st.hash && (d.b != lbn || n <= d.o) :: d in h)
    && (forall o: nat {:trigger DealtWith(g, st, h, f, lbn, t, o)} | o < n :: DealtWith(g, st, h, f, lbn, t, o))
  }

  /** The newest copy stays where it is in the log area. */
  lemma StepKeeps(g: Geometry, st: State, h: map<Pg, Pg>, f: seq<seq<Cell>>, lbn: nat, t: nat, n: nat, m: nat)
    requires Building(g, st, h, f, lbn, t, n, m) && n < g.pages
    requires Pg(lbn, n) in h && LogVbn(g, st, h[Pg(lbn, n)].b) != t
    ensures Building(g, st, h, f, lbn, t, n + 1, m)
  {
    forall d | d in st.hash && (d.b != lbn || n + 1 <= d.o) ensures d in h {
      assert d.b != lbn || n <= d.o;
    }
    forall o: nat | o < n + 1 ensures DealtWith(g, st, h, f, lbn, t, o) {
      assert o < n ==> DealtWith(g, st, h, f, lbn, t, o);
    }
  }

  /** The newest copy is in block t already. */
  lemma StepInPlace(g: Geometry, st: State, h: map<Pg, Pg>, f: seq<seq<Cell>>, lbn: nat, t: nat, n: nat, m: nat)
    requires Building(g, st, h, f, lbn, t, n, m) && n < g.pages && n < m
    requires Read(g, CellAt(st.flash, t, n)) == Resolve(g, st, Pg(lbn, n))
    ensures Building(g, st, h - {Pg(lbn, n)}, f, lbn, t, n + 1, m)
  {
    var h' := h - {Pg(lbn, n)};
    forall o: nat | o < n + 1 ensures DealtWith(g, st, h', f, lbn, t, o) {
      assert o < n ==> DealtWith(g, st, h, f, lbn, t, o);
    }
  }

  /** The newest copy is copied to block t. */
  lemma StepCopies(g: Geometry, st: State, h: map<Pg, Pg>, f: seq<seq<Cell>>, lbn: nat, t: nat, n: nat, m: nat)
    requires Building(g, st, h, f, lbn, t, n, m) && n < g.pages && m <= n
    ensures CellAt(f, t, n) == Erased
    ensures Building(g, st, h - {Pg(lbn, n)}, Program(f, t, n, Page(Resolve(g, st, Pg(lbn, n)))), lbn, t, n + 1, m)
  {
    var h', f' := h - {Pg(lbn, n)}, Program(f, t, n, Page(Resolve(g, st, Pg(lbn, n))));
    ProgramCells(f, t, n, Page(Resolve(g, st, Pg(lbn, n))));
    forall o: nat | o < n + 1 ensures DealtWith(g, st, h', f', lbn, t, o) {
      assert o < n ==> DealtWith(g, st, h, f, lbn, t, o);
    }
  }

  lemma BuildingEnds(g: Geometry, st: State, h: map<Pg, Pg>, f: seq<seq<Cell>>, lbn: nat, t: nat, m: nat)
    requires Building(g, st, h, f, lbn, t, g.pages, m) && HashOk(g, st)
    requires forall d | d in st.hash && d.b != lbn :: LogVbn(g, st, st.hash[d].b) != t
    ensures Rebuilt(g, st, h, f, lbn, t)
  {
    forall d | d in h ensures KeptEntry(g, st, h, t, d) {
      if d.b == lbn {
        assert EntryOk(g, st, d, st.hash[d]);
        assert DealtWith(g, st, h, f, lbn, t, d.o);
      }
    }
    forall o: nat | o < g.pages ensures BuiltAt(g, st, h, f, lbn, t, o) {
      assert DealtWith(g, st, h, f, lbn, t, o);
    }
  }

  /** What a copyback reads: the source is not in the block that is being built. */
  lemma SourceIsOld(g: Geometry, st: State, h: map<Pg, Pg>, f: seq<seq<Cell>>, lbn: nat, t: nat, n: nat, m: nat, d: Pg)
    requires Building(g, st, h, f, lbn, t, n, m) && Where(g, st, d).b != t
    ensures Read(g, CellAt(f, Where(g, st, d).b, Where(g, st, d).o)) == Resolve(g, st, d)
  {
  }

  // ---- changes that leave the blocks and flash alone ----------------------------------------------------------------

  ghost predicate SameTables(st: State, st': State) {
    st'.data == st.data && st'.log == st.log && st'.isol == st.isol && st'.free == st.free
  }

  lemma SameVbns(g: Geometry, st: State, st': State)
    requires SameTables(st, st')
    ensures forall o :: VbnOf(g, st', o) == VbnOf(g, st, o)
    ensures forall b: nat :: LogVbn(g, st', b) == LogVbn(g, st, b)
  {
  }

  lemma SameTablesKeepOwners(g: Geometry, st: State, st': State)
    requires BlocksOk(g, st) && SameTables(st, st')
    ensures BlocksOk(g, st') && Blocks(g, st') == Blocks(g, st)
  {
    SameVbns(g, st, st');
    forall o | IsOwner(g, o) ensures OwnerOk(g, st', o) {
      assert OwnerOk(g, st, o);
    }
    forall o, p | IsOwner(g, o) && IsOwner(g, p) ensures TwoOwners(g, st', o, p) {
      assert TwoOwners(g, st, o, p);
    }
    forall v ensures HasOwner(g, st', v) <==> HasOwner(g, st, v) {
      if o :| IsOwner(g, o) && VbnOf(g, st, o) == v {
        assert VbnOf(g, st', o) == v;
      }
      if o :| IsOwner(g, o) && VbnOf(g, st', o) == v {
        assert VbnOf(g, st, o) == v;
      }
    }
  }
}
