/** The tables of the greedy FTL (one bank) and the invariant that every operation keeps. */
module GreedyState {
  import opened Arith
  import opened Sectors

  /** The vcount value of a block that holds no user data. */
  const VC_MAX: nat := 0xCDCD

  /** One NAND page: erased, programmed with host data, or programmed with the lpn list of its block. */
  datatype Cell = Erased | Data(sectors: seq<Sector>) | LpnList(lpns: seq<nat>)

  /** The compile-time configuration of the firmware and the factory bad-block list. */
  datatype Geometry = Geometry(
    pages: nat,     // PAGES_PER_BLK
    sects: nat,     // SECTORS_PER_PAGE
    blocks: nat,    // VBLKS_PER_BANK
    meta: nat,      // META_BLKS_PER_BANK
    lpages: nat,    // NUM_LPAGES
    bad: set<nat>)
  {
    /** The good blocks left when the firmware and metadata blocks are taken: free_blk_cnt after format. */
    function Usable(): int { blocks - meta - |bad| }

    predicate Valid() {
      && 3 <= pages < VC_MAX
      && 1 <= sects
      && 2 <= meta
      && (forall b <- bad :: 2 <= b < blocks)
      && 2 <= Usable()
      && 1 <= lpages
    }

    /** The over-provisioning that keeps garbage collection going. */
    predicate HasSpare() { lpages < (pages - 2) * (Usable() - 1) }
  }

  // ---- vpn arithmetic -----------------------------------------------------------------------

  function Vpn(g: Geometry, block: nat, page: nat): nat { block * g.pages + page }

  function BlockOf(g: Geometry, vpn: nat): nat { if g.pages == 0 then 0 else vpn / g.pages }

  function PageOf(g: Geometry, vpn: nat): nat { if g.pages == 0 then 0 else vpn % g.pages }

  lemma VpnParts(g: Geometry, block: nat, page: nat)
    requires page < g.pages
    ensures BlockOf(g, Vpn(g, block, page)) == block && PageOf(g, Vpn(g, block, page)) == page
  {
    assert (block * g.pages + page) / g.pages == block by {
      DivUnique(block * g.pages + page, g.pages, block, page);
    }
  }

  lemma VpnJoins(g: Geometry, vpn: nat)
    requires g.pages > 0
    ensures Vpn(g, BlockOf(g, vpn), PageOf(g, vpn)) == vpn
    ensures PageOf(g, vpn) < g.pages
  {
  }

  // ---- the tables ---------------------------------------------------------------------------

  /** PAGE_MAP, VCOUNT, misc_metadata and the NAND array. In PAGE_MAP the vpn 0 means "never written". */
  datatype State = State(
    g: Geometry,
    pmap: seq<nat>,
    vc: seq<nat>,
    list: seq<nat>,             // lpn_list_of_cur_vblock
    flash: seq<seq<Cell>>,      // by vblock, then page
    gc: nat,                    // gc_vblock
    free: int)                  // free_blk_cnt

  ghost predicate Shape(s: State) {
    && s.g.Valid()
    && |s.pmap| == s.g.lpages
    && |s.vc| == s.g.blocks
    && |s.list| == s.g.pages
    && |s.flash| == s.g.blocks
    && (forall b | 0 <= b < |s.flash| :: |s.flash[b]| == s.g.pages)
  }

  // The tables read as total functions, so that the invariant needs no bounds.

  function Map(s: State, l: nat): nat { if l < |s.pmap| then s.pmap[l] else 0 }

  function Vc(s: State, b: nat): nat { if b < |s.vc| then s.vc[b] else VC_MAX }

  function At(s: State, b: nat, p: nat): Cell {
    if b < |s.flash| && p < |s.flash[b]| then s.flash[b][p] else Erased
  }

  predicate IsData(s: State, b: nat) { Vc(s, b) != VC_MAX }

  /** The last page of a block, which takes its lpn list. */
  function LastPage(g: Geometry): nat { if g.pages == 0 then 0 else g.pages - 1 }

  ghost predicate IsClosed(s: State, b: nat) { At(s, b, LastPage(s.g)).LpnList? }

  function Entry(g: Geometry, list: seq<nat>, p: nat): nat { if p < |list| then list[p] else g.lpages }

  /** The lpn that the list of block b names for page p; the list is in the last page of the block once the
      block is closed, in SRAM before that. A missing entry is g.lpages. */
  ghost function Name(s: State, b: nat, p: nat): nat {
    var last := At(s, b, LastPage(s.g));
    if last.LpnList? then Entry(s.g, last.lpns, p) else Entry(s.g, s.list, p)
  }

  function Blank(g: Geometry): seq<Sector> { seq(g.sects, _ => ALL_ONES) }

  /** What a page read returns. */
  function Readout(g: Geometry, c: Cell): seq<Sector> {
    match c
    case Data(sectors) => sectors
    case _ => Blank(g)
  }

  /** The content the host sees in logical page l. */
  ghost function Content(s: State, l: nat): seq<Sector> {
    var v := Map(s, l);
    if v == 0 then Blank(s.g) else Readout(s.g, At(s, BlockOf(s.g, v), PageOf(s.g, v)))
  }

  /** The logical disk: the content of every logical page. */
  ghost function Disk(s: State): seq<seq<Sector>> { seq(s.g.lpages, l requires 0 <= l => Content(s, l)) }

  ghost function DataBlocks(s: State): set<nat> { set b: nat | b < |s.vc| && IsData(s, b) }

  ghost function ClosedBlocks(s: State): set<nat> { set b: nat | b < |s.vc| && IsData(s, b) && IsClosed(s, b) }

  /** The lpns whose newest copy is in block b. */
  ghost function LpnsIn(s: State, b: nat): set<nat> {
    set l: nat | l < |s.pmap| && Map(s, l) != 0 && BlockOf(s.g, Map(s, l)) == b
  }

  ghost predicate ErasedFrom(s: State, b: nat, page: nat) {
    forall p: nat | page <= p < s.g.pages :: At(s, b, p) == Erased
  }

  // ---- the invariant ------------------------------------------------------------------------

  /** The newest copy of l is programmed in a data block, and the list of the block names it there. */
  ghost predicate Mapped(s: State, l: nat) {
    var b, p := BlockOf(s.g, Map(s, l)), PageOf(s.g, Map(s, l));
    && IsData(s, b)
    && p < LastPage(s.g)
    && At(s, b, p).Data? && |At(s, b, p).sectors| == s.g.sects
    && Name(s, b, p) == l
  }

  ghost predicate MapOk(s: State) {
    forall l: nat | l < |s.pmap| && Map(s, l) != 0 :: Mapped(s, l)
  }

  ghost predicate CountsOk(s: State) {
    forall b: nat | b < |s.vc| && IsData(s, b) :: Vc(s, b) == |LpnsIn(s, b)|
  }

  /** User data is only in good blocks outside the metadata area; the reserve block is erased. */
  ghost predicate BlocksOk(s: State) {
    && |DataBlocks(s)| == s.g.Usable() - 1
    && (forall b: nat | b < |s.vc| && IsData(s, b) :: s.g.meta <= b && b !in s.g.bad)
    && s.g.meta <= s.gc < |s.vc| && s.gc !in s.g.bad && !IsData(s, s.gc)
    && ErasedFrom(s, s.gc, 0)
  }

  /** Every entry of the SRAM list and of every list on flash is an lpn. */
  ghost predicate ListsOk(s: State) {
    && (forall p: nat | p < s.g.pages :: Entry(s.g, s.list, p) < s.g.lpages)
    && (forall b: nat, p: nat | IsData(s, b) && p < s.g.pages :: Name(s, b, p) < s.g.lpages)
    && (forall b: nat | IsData(s, b) && IsClosed(s, b) :: |At(s, b, LastPage(s.g)).lpns| == s.g.pages)
  }

  /** free_blk_cnt counts the usable blocks that are not closed. */
  ghost predicate FreeOk(s: State) { s.free == s.g.Usable() - |ClosedBlocks(s)| }

  /** Blocks before the active block a are closed; those after it are all still erased or, once garbage
      collection has begun, all closed. */
  ghost predicate Generations(s: State, a: nat) {
    && (forall b: nat | b < a && IsData(s, b) :: IsClosed(s, b))
    && ((forall b: nat | a < b && b < |s.vc| && IsData(s, b) :: ErasedFrom(s, b, 0)) ||
        (forall b: nat | a < b && b < |s.vc| && IsData(s, b) :: IsClosed(s, b)))
  }

  /** The part of the invariant that is about the tables and not the write pointer. */
  ghost predicate Tables(s: State) {
    Shape(s) && MapOk(s) && CountsOk(s) && BlocksOk(s) && ListsOk(s) && FreeOk(s)
  }

  /** What holds also in the middle of a write, when the active block has just been closed.
      The write pointer cur is cur_write_vpn. */
  ghost predicate Core(s: State, cur: nat) {
    Tables(s) && IsData(s, BlockOf(s.g, cur)) && Generations(s, BlockOf(s.g, cur))
  }

  /** The invariant at every operation boundary. */
  ghost predicate Inv(s: State, cur: nat) {
    && Core(s, cur)
    && PageOf(s.g, cur) < LastPage(s.g)
    && ErasedFrom(s, BlockOf(s.g, cur), PageOf(s.g, cur) + 1)
  }

  /** The page at the write pointer itself is free: true between assigning a vpn and programming it. */
  ghost predicate Ready(s: State, cur: nat) {
    Inv(s, cur) && At(s, BlockOf(s.g, cur), PageOf(s.g, cur)) == Erased
  }
}
