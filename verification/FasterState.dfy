/** The tables of the FASTer hybrid FTL (one bank), where each logical page is found, and the invariant. */
module FasterState {
  import opened Sectors

  /** A block number with an offset in the block: a logical data page, or a page of the log or isolation area. */
  datatype Pg = Pg(b: nat, o: nat)

  /** The contents of one page: its sectors. */
  type Data = seq<Sector>

  datatype Cell = Erased | Page(data: Data) | Names(list: seq<Pg>)

  /** An unused block number, the mark of a log block that does not exist, and INVALID. */
  const NONE: nat := 0xFFFF_FFFF

  const RESERVED: nat := 2           // RESERV_ISOL_BLK

  const NOWHERE: Pg := Pg(NONE, NONE)

  /** The sizes: pages to a block, sectors to a page, data blocks, log blocks (of which used exist), isolation blocks,
      free blocks and all blocks. Log block 0 is the sequential one; blocks from logs on are the isolation area. */
  datatype Geometry = Geometry(pages: nat, sects: nat, datas: nat, logs: nat, used: nat, isols: nat, frees: nat,
      blocks: nat) {
    predicate Valid() {
      && 3 <= pages < NONE && 0 < sects && 0 < datas < NONE && 2 <= used <= logs && RESERVED < isols && 0 < frees
      && logs + isols < NONE && blocks < NONE
    }
  }

  datatype State = State(
    data: seq<nat>,            // DATA_BMT
    log: seq<nat>,             // LOG_BMT
    isol: seq<nat>,            // ISOL_BMT
    free: seq<nat>,            // the blocks in FREE_BMT, the next one to be given out first
    vc: set<Pg>,               // VC_BITMAP: the data pages whose newest copy is in the log area
    hash: map<Pg, Pg>,         // shashtbl: from data pages to log pages
    sc: set<Pg>,               // SC_BITMAP
    flash: seq<seq<Cell>>,
    swLbn: nat,                // swlog_data_lbn
    swNext: nat,               // cur_write_swlog_offset + 1
    cur: Pg,                   // cur_write_rwlog_lpn: the log page written last
    rwFree: nat,               // rwlog_free_blk_cnt
    rwList: seq<Pg>,           // lpn_list_of_rwlog_blk
    isolCur: Pg,               // cur_write_isol_lpn, or NOWHERE
    isolList: seq<Pg>,         // lpn_list_of_cur_isol_blk
    isolFree: int,             // isol_free_blk_cnt
    vt: Pg,                    // cur_vt_isol_lpn, or NOWHERE
    vtList: seq<Pg>)           // lpn_list_of_vt_isol_blk

  // ---- where pages are -------------------------------------------------------------------------------------

  function Blank(g: Geometry): Data { seq(g.sects, i => ALL_ONES) }

  function CellAt(flash: seq<seq<Cell>>, v: nat, o: nat): Cell {
    if v < |flash| && o < |flash[v]| then flash[v][o] else Erased
  }

  /** What a read returns: an erased page reads as all ones. */
  function Read(g: Geometry, c: Cell): Data { if c.Page? then c.data else Blank(g) }

  /** The physical block of log block b, or of isolation block b - logs. */
  function LogVbn(g: Geometry, st: State, b: nat): nat {
    if b < g.logs then (if b < |st.log| then st.log[b] else NONE)
    else if b - g.logs < |st.isol| then st.isol[b - g.logs] else NONE
  }

  function DataVbn(st: State, b: nat): nat { if b < |st.data| then st.data[b] else NONE }

  /** get_vpn: where the newest copy of data page d is. */
  function Where(g: Geometry, st: State, d: Pg): Pg {
    if d in st.hash then Pg(LogVbn(g, st, st.hash[d].b), st.hash[d].o) else Pg(DataVbn(st, d.b), d.o)
  }

  function CellOf(g: Geometry, st: State, d: Pg): Cell { CellAt(st.flash, Where(g, st, d).b, Where(g, st, d).o) }

  /** The content of data page d. */
  function Resolve(g: Geometry, st: State, d: Pg): Data { Read(g, CellOf(g, st, d)) }

  /** The page of a block that is for the names of the others. */
  function Last(g: Geometry): nat { if g.pages == 0 then 0 else g.pages - 1 }

  predicate IsPage(g: Geometry, d: Pg) { d.b < g.datas && d.o < g.pages }

  // ---- who owns the blocks ------------------------------------------------------------------------------------

  datatype Owner = DataOf(i: nat) | LogOf(i: nat)

  predicate IsOwner(g: Geometry, o: Owner) {
    match o
    case DataOf(i) => i < g.datas
    case LogOf(i) => i < g.used || g.logs <= i < g.logs + g.isols
  }

  function VbnOf(g: Geometry, st: State, o: Owner): nat {
    match o
    case DataOf(i) => DataVbn(st, i)
    case LogOf(i) => LogVbn(g, st, i)
  }

  ghost predicate Shape(g: Geometry, st: State) {
    && g.Valid() && |st.data| == g.datas && |st.log| == g.logs && |st.isol| == g.isols && |st.free| == g.frees
    && |st.rwList| == |st.isolList| == |st.vtList| == g.pages
    && |st.flash| == g.blocks && forall v | 0 <= v < g.blocks :: |st.flash[v]| == g.pages
  }

  ghost predicate OwnerOk(g: Geometry, st: State, o: Owner) {
    VbnOf(g, st, o) < g.blocks && VbnOf(g, st, o) !in st.free
  }

  ghost predicate TwoOwners(g: Geometry, st: State, o: Owner, p: Owner) {
    o != p ==> VbnOf(g, st, o) != VbnOf(g, st, p)
  }

  /** Every block has one owner: a data block, a log or isolation block, or the free ring. */
  ghost predicate BlocksOk(g: Geometry, st: State) {
    && (forall o {:trigger OwnerOk(g, st, o)} | IsOwner(g, o) :: OwnerOk(g, st, o))
    && (forall o, p {:trigger TwoOwners(g, st, o, p)} | IsOwner(g, o) && IsOwner(g, p) :: TwoOwners(g, st, o, p))
    && (forall i | 0 <= i < |st.free| :: st.free[i] < g.blocks)
    && (forall i, j | 0 <= i < j < |st.free| :: st.free[i] != st.free[j])
    && (forall b | 0 <= b < |st.log| :: st.log[b] == NONE <==> g.used <= b)
  }

  /** All the blocks that have an owner. */
  ghost function Blocks(g: Geometry, st: State): set<nat> {
    set v: nat | v < g.blocks && HasOwner(g, st, v)
  }

  ghost predicate HasOwner(g: Geometry, st: State, v: nat) {
    v in st.free || exists o :: IsOwner(g, o) && VbnOf(g, st, o) == v
  }

  // ---- the invariant -------------------------------------------------------------------------------------------

  ghost predicate ErasedFrom(flash: seq<seq<Cell>>, v: nat, o: nat) {
    forall p: nat {:trigger CellAt(flash, v, p)} | o <= p :: CellAt(flash, v, p) == Erased
  }

  ghost predicate FreeErased(st: State) {
    forall i {:trigger st.free[i]} | 0 <= i < |st.free| :: ErasedFrom(st.flash, st.free[i], 0)
  }

  /** Log page e is one that data page d may be in: in the sequential log block only at its own offset, and elsewhere
      not in the last page, which is for the names. */
  ghost predicate EntryOk(g: Geometry, st: State, d: Pg, e: Pg) {
    && IsPage(g, d) && IsOwner(g, LogOf(e.b))
    && (if e.b == 0 then d.b == st.swLbn && e.o == d.o && e.o < st.swNext else e.o < Last(g))
    && CellAt(st.flash, LogVbn(g, st, e.b), e.o).Page?
  }

  /** The index: a data page has its VC bit set exactly when the hash table has an entry, and no two have the same. */
  ghost predicate HashOk(g: Geometry, st: State) {
    && st.vc == st.hash.Keys
    && (forall d {:trigger EntryOk(g, st, d, st.hash[d])} | d in st.hash :: EntryOk(g, st, d, st.hash[d]))
    && (forall d, e | d in st.hash && e in st.hash && d != e :: st.hash[d] != st.hash[e])
  }

  /** The sequential log block: the pages before swNext belong to data block swLbn and are in the log area, here or with
      a newer copy elsewhere; the pages after are erased. */
  ghost predicate SwOk(g: Geometry, st: State) {
    && st.swNext <= g.pages && (st.swNext == 0 <==> st.swLbn == NONE)
    && (st.swLbn != NONE ==> st.swLbn < g.datas)
    && (forall o {:trigger Pg(st.swLbn, o)} | 0 <= o < st.swNext :: Pg(st.swLbn, o) in st.hash)
    && ErasedFrom(st.flash, LogVbn(g, st, 0), st.swNext)
  }

  /** The names in the last page of a block say that page o holds d. */
  predicate NamedBy(c: Cell, o: nat, d: Pg) { c.Names? && o < |c.list| && c.list[o] == d }

  predicate Listed(list: seq<Pg>, o: nat, d: Pg) { o < |list| && list[o] == d }

  /** The random log block that is being written, and the next page in it. */
  function OpenBlock(g: Geometry, cur: Pg): nat { if cur.o + 1 == g.pages then cur.b + 1 else cur.b }

  function OpenPage(g: Geometry, cur: Pg): nat { if cur.o + 1 == g.pages then 0 else cur.o + 1 }

  /** What names entry d at log page e of the random log area. */
  ghost predicate RwNamed(g: Geometry, st: State, d: Pg, e: Pg) {
    0 < e.b < g.logs ==>
      if st.rwFree > 0 && e.b == OpenBlock(g, st.cur) then e.o < OpenPage(g, st.cur) && Listed(st.rwList, e.o, d)
      else NamedBy(CellAt(st.flash, LogVbn(g, st, e.b), Last(g)), e.o, d)
  }

  /** A random log block that has not been used yet. */
  ghost predicate Fresh(g: Geometry, st: State, b: nat) { ErasedFrom(st.flash, LogVbn(g, st, b), 0) }

  ghost predicate RwOk(g: Geometry, st: State) {
    && (forall d {:trigger RwNamed(g, st, d, st.hash[d])} | d in st.hash :: RwNamed(g, st, d, st.hash[d]))
    && st.cur.o < g.pages && st.cur.b < g.used
    && (st.rwFree > 0 ==>
          && 0 < OpenBlock(g, st.cur) < g.used
          && ErasedFrom(st.flash, LogVbn(g, st, OpenBlock(g, st.cur)), OpenPage(g, st.cur))
          && (st.rwFree == 1 || st.rwFree == g.used - OpenBlock(g, st.cur)))
    && (st.rwFree > 1 ==> forall b: nat {:trigger Fresh(g, st, b)} | OpenBlock(g, st.cur) < b < g.used ::
         Fresh(g, st, b))
  }

  /** What names entry d at log page e of the isolation area, for the block that is written, for the one that is merged,
      and for the others. */
  ghost predicate IsolNamed(g: Geometry, st: State, d: Pg, e: Pg) {
    g.logs <= e.b ==>
      && (if e.b == g.logs + st.isolCur.b then e.o <= st.isolCur.o && Listed(st.isolList, e.o, d)
          else NamedBy(CellAt(st.flash, LogVbn(g, st, e.b), Last(g)), e.o, d))
      && (e.b == g.logs + st.vt.b ==> st.vt.o < e.o && Listed(st.vtList, e.o, d))
  }

  /** Isolation blocks are written in ascending order. */
  ghost predicate Ascending(g: Geometry, st: State, b: nat) {
    forall o: nat, p: nat | o <= p && CellAt(st.flash, LogVbn(g, st, b), o) == Erased ::
        CellAt(st.flash, LogVbn(g, st, b), p) == Erased
  }

  ghost predicate IsolOk(g: Geometry, st: State) {
    && (forall d {:trigger IsolNamed(g, st, d, st.hash[d])} | d in st.hash :: IsolNamed(g, st, d, st.hash[d]))
    && (forall b: nat {:trigger Ascending(g, st, b)} | g.logs <= b < g.logs + g.isols :: Ascending(g, st, b))
    && (st.isolCur == NOWHERE ||
          (st.isolCur.b < g.isols && st.isolCur.o < Last(g)
              && CellAt(st.flash, LogVbn(g, st, g.logs + st.isolCur.b), st.isolCur.o) != Erased))
    && (st.vt == NOWHERE || (st.vt.b < g.isols && st.vt.o < g.pages))
    && (st.isolCur != NOWHERE && st.vt != NOWHERE ==> st.isolCur.b != st.vt.b)
  }

  /** The isolation block that is being merged, or is merged next. */
  function FirstIsol(g: Geometry, st: State): nat {
    if st.vt == NOWHERE then 0 else if st.vt.o != Last(g) then st.vt.b
    else if st.vt.b + 1 < g.isols then st.vt.b + 1 else 0
  }

  /** The isolation block that is i blocks further on. */
  function IsolAt(g: Geometry, st: State, i: nat): nat {
    if FirstIsol(g, st) + i < g.isols then FirstIsol(g, st) + i else FirstIsol(g, st) + i - g.isols
  }

  /** The isolation blocks that are not free have their names written, and come first; then the block that is being
      written, and then those that are erased. */
  ghost predicate InTurn(g: Geometry, st: State, i: nat) {
    var b := g.logs + IsolAt(g, st, i);
    && (st.isolFree + i < g.isols ==> CellAt(st.flash, LogVbn(g, st, b), Last(g)).Names?)
    && (st.isolFree + i == g.isols && st.isolCur != NOWHERE ==> b == g.logs + st.isolCur.b)
    && (st.isolFree + i > g.isols || st.isolCur == NOWHERE ==> CellAt(st.flash, LogVbn(g, st, b), 0) == Erased)
  }

  ghost predicate RingOk(g: Geometry, st: State) {
    && 0 < st.isolFree <= g.isols && (st.isolCur == NOWHERE ==> st.isolFree == g.isols && st.vt == NOWHERE)
    && forall i: nat {:trigger InTurn(g, st, i)} | i < g.isols :: InTurn(g, st, i)
  }

  /** In the isolation block that is being written, everything after the page written last is erased. */
  ghost predicate IsolOpen(g: Geometry, st: State) {
    && (st.isolCur != NOWHERE ==> ErasedFrom(st.flash, LogVbn(g, st, g.logs + st.isolCur.b), st.isolCur.o + 1))
    && RingOk(g, st)
  }

  /** The ring depends on the first and the last page of the isolation blocks only. */
  lemma RingStays(g: Geometry, st: State, st': State)
    requires RingOk(g, st) && st'.isolCur == st.isolCur && st'.isolFree == st.isolFree
    requires FirstIsol(g, st') == FirstIsol(g, st) < g.isols && (st.isolCur == NOWHERE ==> st'.vt == NOWHERE)
    requires forall b: nat, p: nat | g.logs <= b < g.logs + g.isols && (p == 0 || p == Last(g)) ::
      CellAt(st'.flash, LogVbn(g, st', b), p) == CellAt(st.flash, LogVbn(g, st, b), p)
    ensures RingOk(g, st')
  {
    forall i: nat | i < g.isols ensures InTurn(g, st', i) {
      assert InTurn(g, st, i) && IsolAt(g, st', i) == IsolAt(g, st, i) < g.isols;
    }
  }

  ghost predicate Inv(g: Geometry, st: State) {
    && Shape(g, st) && BlocksOk(g, st) && FreeErased(st) && HashOk(g, st) && SwOk(g, st)
    && RwOk(g, st) && IsolOk(g, st) && IsolOpen(g, st)
  }

  /** Every data page has the content it had. */
  ghost predicate SameContent(g: Geometry, st: State, st': State) {
    forall d {:trigger Resolve(g, st', d)} | IsPage(g, d) :: Resolve(g, st', d) == Resolve(g, st, d)
  }
}
