/** What one write does to the tables: closing a block, moving to the next one, programming the page. */
module GreedyWrite {
  import opened Sectors
  import opened Arith
  import opened Sets
  import opened GreedyState

  // ---- programming the new copy -------------------------------------------------------------

  /** write_page after the new vpn is known: the page is programmed, the list and the map name it, and the
      count moves from the block of the old copy to the active block. */
  ghost predicate Wrote(s: State, r: State, cur: nat, l: nat, sectors: seq<Sector>) {
    var b, p := BlockOf(s.g, cur), PageOf(s.g, cur);
    && r.g == s.g && Shape(r) && r.gc == s.gc && r.free == s.free
    && (forall k: nat :: Map(r, k) == if k == l then cur else Map(s, k))
    && (forall c: nat, q: nat :: At(r, c, q) == if c == b && q == p then Data(sectors) else At(s, c, q))
    && (forall q: nat :: Entry(r.g, r.list, q) == if q == p then l else Entry(s.g, s.list, q))
    && (forall c: nat :: Vc(r, c) == Vc(s, c) + (if c == b then 1 else 0) - (if HoldsOld(s, l, c) then 1 else 0))
  }

  predicate HoldsOld(s: State, l: nat, c: nat) { Map(s, l) != 0 && BlockOf(s.g, Map(s, l)) == c }

  /** No block can hold more valid pages than its list has entries. */
  lemma BlockCountBound(s: State, b: nat)
    requires Tables(s) && IsData(s, b)
    ensures Vc(s, b) <= s.g.pages - 1
  {
    var names := seq(LastPage(s.g), p requires 0 <= p => Name(s, b, p));
    forall l <- LpnsIn(s, b) ensures l in Elems(names) {
      assert Mapped(s, l);
      assert names[PageOf(s.g, Map(s, l))] == l;
    }
    SubsetSize(LpnsIn(s, b), Elems(names));
    ElemsSize(names);
  }

  /** The pages that name the lpns of the active block lie below the write pointer, so it has room. */
  lemma RoomInActive(s: State, cur: nat)
    requires Ready(s, cur)
    ensures Vc(s, BlockOf(s.g, cur)) <= PageOf(s.g, cur)
  {
    var b, p := BlockOf(s.g, cur), PageOf(s.g, cur);
    var names := seq(p, q requires 0 <= q => Name(s, b, q));
    forall l <- LpnsIn(s, b) ensures l in Elems(names) {
      assert Mapped(s, l);
      assert names[PageOf(s.g, Map(s, l))] == l;
    }
    SubsetSize(LpnsIn(s, b), Elems(names));
    ElemsSize(names);
  }

  /** The ASSERT in set_vpn: user data is never mapped to vpn 0, which means "unmapped". */
  lemma PointerIsNotNull(s: State, cur: nat)
    requires Shape(s) && BlocksOk(s) && IsData(s, BlockOf(s.g, cur))
    ensures cur >= s.g.meta * s.g.pages && cur != 0
  {
    VpnJoins(s.g, cur);
    assert BlockOf(s.g, cur) >= s.g.meta;
    Grows(s.g.meta, BlockOf(s.g, cur), s.g.pages);
    MulAtLeast(s.g.meta, s.g.pages);
  }

  lemma OldCopyCounted(s: State, l: nat)
    requires Tables(s) && l < s.g.lpages && Map(s, l) != 0
    ensures IsData(s, BlockOf(s.g, Map(s, l)))
    ensures 0 < Vc(s, BlockOf(s.g, Map(s, l))) < s.g.pages
  {
    assert Mapped(s, l);
    var b := BlockOf(s.g, Map(s, l));
    assert l in LpnsIn(s, b);
    BlockCountBound(s, b);
  }

  /** A mapped lpn is in a closed block or in the active one. */
  lemma OnlyActiveIsOpen(s: State, cur: nat, l: nat)
    requires Core(s, cur) && l < s.g.lpages && Map(s, l) != 0
    ensures var b := BlockOf(s.g, Map(s, l)); b == BlockOf(s.g, cur) || IsClosed(s, b)
  {
    assert Mapped(s, l);
    assert !ErasedFrom(s, BlockOf(s.g, Map(s, l)), 0);
  }

  lemma WroteReads(s: State, r: State, cur: nat, l: nat, sectors: seq<Sector>)
    requires Ready(s, cur) && Wrote(s, r, cur, l, sectors) && l < s.g.lpages
    ensures forall c: nat :: IsData(r, c) == IsData(s, c)
    ensures forall c: nat :: IsClosed(r, c) == IsClosed(s, c)
    ensures forall c: nat, q: nat ::
      Name(r, c, q) == if q == PageOf(s.g, cur) && !IsClosed(s, c) then l else Name(s, c, q)
  {
    if Map(s, l) != 0 {
      OldCopyCounted(s, l);
    }
    forall c: nat ensures IsData(r, c) == IsData(s, c) {
      if IsData(s, c) {
        BlockCountBound(s, c);
      }
    }
  }

  lemma WroteOther(s: State, r: State, cur: nat, l: nat, sectors: seq<Sector>, k: nat)
    requires Ready(s, cur) && Wrote(s, r, cur, l, sectors) && l < s.g.lpages
    requires k < s.g.lpages && k != l && Map(s, k) != 0
    ensures Mapped(r, k) && Content(r, k) == Content(s, k)
  {
    WroteReads(s, r, cur, l, sectors);
    assert Mapped(s, k);
    OnlyActiveIsOpen(s, cur, k);
  }

  lemma WroteMapOk(s: State, r: State, cur: nat, l: nat, sectors: seq<Sector>)
    requires Ready(s, cur) && Wrote(s, r, cur, l, sectors) && l < s.g.lpages && |sectors| == s.g.sects
    ensures MapOk(r)
  {
    WroteReads(s, r, cur, l, sectors);
    forall k: nat | k < s.g.lpages && Map(r, k) != 0 ensures Mapped(r, k) {
      if k != l {
        WroteOther(s, r, cur, l, sectors, k);
      }
    }
  }

  lemma WroteContent(s: State, r: State, cur: nat, l: nat, sectors: seq<Sector>, k: nat)
    requires Ready(s, cur) && Wrote(s, r, cur, l, sectors) && l < s.g.lpages && k < s.g.lpages && cur != 0
    ensures Content(r, k) == if k == l then sectors else Content(s, k)
  {
    if k != l && Map(s, k) != 0 {
      WroteOther(s, r, cur, l, sectors, k);
    }
  }

  lemma WroteDisk(s: State, r: State, cur: nat, l: nat, sectors: seq<Sector>)
    requires Ready(s, cur) && Wrote(s, r, cur, l, sectors) && l < s.g.lpages && cur != 0
    ensures Disk(r) == Disk(s)[l := sectors]
  {
    forall k: nat | k < s.g.lpages ensures Disk(r)[k] == Disk(s)[l := sectors][k] {
      WroteContent(s, r, cur, l, sectors, k);
    }
  }

  lemma WroteLpns(s: State, r: State, cur: nat, l: nat, sectors: seq<Sector>, c: nat)
    requires Shape(s) && Wrote(s, r, cur, l, sectors) && l < s.g.lpages && cur != 0
    ensures LpnsIn(r, c) == LpnsIn(s, c) - {l} + (if c == BlockOf(s.g, cur) then {l} else {})
    ensures l in LpnsIn(s, c) <==> HoldsOld(s, l, c)
  {
  }

  lemma WroteCount(s: State, r: State, cur: nat, l: nat, sectors: seq<Sector>, c: nat)
    requires Shape(s) && Wrote(s, r, cur, l, sectors) && l < s.g.lpages && cur != 0 && Vc(s, c) == |LpnsIn(s, c)|
    ensures Vc(r, c) == |LpnsIn(r, c)|
  {
    WroteLpns(s, r, cur, l, sectors, c);
  }

  lemma WroteBlocks(s: State, r: State, cur: nat, l: nat, sectors: seq<Sector>)
    requires Ready(s, cur) && Wrote(s, r, cur, l, sectors) && l < s.g.lpages
    ensures BlocksOk(r) && FreeOk(r) && ListsOk(r)
  {
    WroteReads(s, r, cur, l, sectors);
    assert DataBlocks(r) == DataBlocks(s);
    assert ClosedBlocks(r) == ClosedBlocks(s);
  }

  /** A page write keeps the invariant and changes exactly one logical page. */
  lemma WriteKeepsInv(s: State, r: State, cur: nat, l: nat, sectors: seq<Sector>)
    requires Ready(s, cur) && Wrote(s, r, cur, l, sectors) && l < s.g.lpages && |sectors| == s.g.sects && cur != 0
    ensures Inv(r, cur)
    ensures Disk(r) == Disk(s)[l := sectors]
  {
    WroteReads(s, r, cur, l, sectors);
    WroteMapOk(s, r, cur, l, sectors);
    WroteDisk(s, r, cur, l, sectors);
    WroteBlocks(s, r, cur, l, sectors);
    forall c: nat | IsData(r, c) ensures Vc(r, c) == |LpnsIn(r, c)| {
      WroteCount(s, r, cur, l, sectors, c);
    }
  }

  /** The updates that end write_page make that state. */
  lemma WroteByUpdates(s: State, r: State, cur: nat, l: nat, sectors: seq<Sector>, b: nat, p: nat)
    requires Shape(s) && b == BlockOf(s.g, cur) < s.g.blocks && p == PageOf(s.g, cur) < s.g.pages && l < s.g.lpages
    requires Shape(r) && (forall c: nat | c < s.g.blocks ::
               Vc(r, c) == Vc(s, c) - (if HoldsOld(s, l, c) then 1 else 0) + (if c == b then 1 else 0))
    requires Map(s, l) != 0 ==> BlockOf(s.g, Map(s, l)) < s.g.blocks
    requires r == s.(flash := s.flash[b := s.flash[b][p := Data(sectors)]],
                     list := s.list[p := l], pmap := s.pmap[l := cur], vc := r.vc)
    ensures Wrote(s, r, cur, l, sectors)
  {
  }

  // ---- closing the active block -------------------------------------------------------------

  /** assign_new_write_vpn when the active block is full: its lpn list goes to its last page. */
  ghost predicate Closed(s: State, r: State, a: nat) {
    && r.g == s.g && Shape(r) && r.gc == s.gc && r.free == s.free - 1
    && (forall k: nat :: Map(r, k) == Map(s, k))
    && (forall c: nat :: Vc(r, c) == Vc(s, c))
    && (forall c: nat, q: nat :: At(r, c, q) == if c == a && q == LastPage(s.g) then LpnList(s.list) else At(s, c, q))
    && (forall q: nat | q < s.g.pages :: Entry(r.g, r.list, q) == 0)
  }

  /** The updates that close block a make that state. */
  lemma ClosedByUpdates(s: State, r: State, a: nat)
    requires Shape(s) && a < s.g.blocks && |r.list| == s.g.pages && (forall i | 0 <= i < |r.list| :: r.list[i] == 0)
    requires r ==
      s.(flash := s.flash[a := s.flash[a][s.g.pages - 1 := LpnList(s.list)]], list := r.list, free := s.free - 1)
    ensures Closed(s, r, a)
  {
  }

  /** Block b is the first data block above block a. */
  ghost predicate IsNext(s: State, a: nat, b: nat) {
    a < b && IsData(s, b) && forall c: nat | a < c < b :: !IsData(s, c)
  }

  lemma ClosedReads(s: State, r: State, cur: nat)
    requires Inv(s, cur) && Closed(s, r, BlockOf(s.g, cur))
    ensures !IsClosed(s, BlockOf(s.g, cur))
    ensures forall c: nat :: IsClosed(r, c) == (c == BlockOf(s.g, cur) || IsClosed(s, c))
    ensures forall c: nat, q: nat | c == BlockOf(s.g, cur) || IsClosed(s, c) :: Name(r, c, q) == Name(s, c, q)
  {
    assert At(s, BlockOf(s.g, cur), LastPage(s.g)) == Erased;
  }

  lemma ClosedMapOk(s: State, r: State, cur: nat)
    requires Inv(s, cur) && Closed(s, r, BlockOf(s.g, cur))
    ensures MapOk(r) && Disk(r) == Disk(s)
  {
    ClosedReads(s, r, cur);
    forall l: nat | l < s.g.lpages && Map(s, l) != 0
      ensures Mapped(r, l) && Content(r, l) == Content(s, l)
    {
      assert Mapped(s, l);
      OnlyActiveIsOpen(s, cur, l);
    }
    assert forall l: nat | l < s.g.lpages :: Content(r, l) == Content(s, l);
  }

  lemma ClosedBlocksOk(s: State, r: State, a: nat)
    requires Shape(s) && BlocksOk(s) && FreeOk(s) && IsData(s, a) && !IsClosed(s, a)
    requires Closed(s, r, a)
    ensures BlocksOk(r) && FreeOk(r)
  {
    assert forall c: nat :: IsData(r, c) == IsData(s, c);
    assert forall c: nat :: IsClosed(r, c) == (c == a || IsClosed(s, c));
    assert DataBlocks(r) == DataBlocks(s);
    assert ClosedBlocks(r) == ClosedBlocks(s) + {a};
  }

  lemma ClosedListsOk(s: State, r: State, a: nat)
    requires Shape(s) && ListsOk(s) && Closed(s, r, a)
    ensures ListsOk(r)
  {
    assert forall c: nat :: IsData(r, c) == IsData(s, c);
    forall b: nat | IsData(r, b) && IsClosed(r, b)
      ensures |At(r, b, LastPage(r.g)).lpns| == r.g.pages
    {
      assert b != a ==> IsClosed(s, b);
    }
    forall b: nat, p: nat | IsData(r, b) && p < r.g.pages
      ensures Name(r, b, p) < r.g.lpages
    {
      assert b != a && IsClosed(r, b) ==> Name(r, b, p) == Name(s, b, p);
    }
  }

  lemma ClosedCountsOk(s: State, r: State, a: nat)
    requires CountsOk(s) && Closed(s, r, a)
    ensures CountsOk(r)
  {
    forall b: nat ensures LpnsIn(r, b) == LpnsIn(s, b) {}
  }

  lemma ClosedGenerations(s: State, r: State, a: nat)
    requires Generations(s, a) && Closed(s, r, a) && Shape(s)
    ensures Generations(r, a) && IsClosed(r, a) && (IsData(s, a) ==> IsData(r, a))
  {
    assert forall c: nat :: IsData(r, c) == IsData(s, c);
    assert forall c: nat :: IsClosed(r, c) == (c == a || IsClosed(s, c));
  }

  lemma ClosingKeepsCore(s: State, r: State, cur: nat)
    requires Inv(s, cur) && Closed(s, r, BlockOf(s.g, cur))
    ensures Core(r, cur) && IsClosed(r, BlockOf(s.g, cur))
    ensures Disk(r) == Disk(s)
  {
    var a := BlockOf(s.g, cur);
    ClosedReads(s, r, cur);
    ClosedMapOk(s, r, cur);
    ClosedBlocksOk(s, r, a);
    ClosedListsOk(s, r, a);
    ClosedCountsOk(s, r, a);
    ClosedGenerations(s, r, a);
  }

  // ---- the next block ------------------------------------------------------------------------

  /** If a second free block is left, there is a data block above the active one, and those are all erased. */
  lemma NextBlockExists(s: State, cur: nat) returns (b: nat)
    requires Core(s, cur) && IsClosed(s, BlockOf(s.g, cur)) && s.free != 1
    ensures BlockOf(s.g, cur) < b < s.g.blocks && IsData(s, b)
    ensures forall c: nat | BlockOf(s.g, cur) < c && IsData(s, c) :: ErasedFrom(s, c, 0)
  {
    assert ClosedBlocks(s) <= DataBlocks(s);
    SubsetSize(ClosedBlocks(s), DataBlocks(s));
    b := Missing(ClosedBlocks(s), DataBlocks(s));
  }

  /** When one free block is left it is the reserve, and every data block is closed. */
  lemma AllClosedAtGc(s: State, b: nat)
    requires Tables(s) && s.free == 1 && IsData(s, b)
    ensures IsClosed(s, b)
  {
    if b !in ClosedBlocks(s) {
      SubsetSize(ClosedBlocks(s), DataBlocks(s) - {b});
    }
  }

  lemma AdvanceIsReady(s: State, cur: nat, next: nat)
    requires Core(s, cur) && IsClosed(s, BlockOf(s.g, cur)) && s.free != 1
    requires BlockOf(s.g, cur) < BlockOf(s.g, next) && IsData(s, BlockOf(s.g, next)) && PageOf(s.g, next) == 0
    requires forall c: nat | BlockOf(s.g, cur) < c < BlockOf(s.g, next) :: !IsData(s, c)
    ensures Ready(s, next)
  {
    var _ := NextBlockExists(s, cur);
  }

  lemma NextBlockIsReady(s: State, cur: nat, b: nat)
    requires Core(s, cur) && IsClosed(s, BlockOf(s.g, cur)) && s.free != 1
    requires BlockOf(s.g, cur) < b && IsData(s, b)
    requires forall c: nat | BlockOf(s.g, cur) < c < b :: !IsData(s, c)
    ensures Ready(s, Vpn(s.g, b, 0))
  {
    VpnParts(s.g, b, 0);
    AdvanceIsReady(s, cur, Vpn(s.g, b, 0));
  }

  lemma NextPageIsReady(s: State, cur: nat)
    requires Inv(s, cur) && PageOf(s.g, cur) != s.g.pages - 2
    ensures Ready(s, cur + 1)
  {
    NextInBlock(s.g, cur);
  }

  lemma NextInBlock(g: Geometry, cur: nat)
    requires PageOf(g, cur) + 1 < g.pages
    ensures BlockOf(g, cur + 1) == BlockOf(g, cur) && PageOf(g, cur + 1) == PageOf(g, cur) + 1
  {
    VpnJoins(g, cur);
    VpnParts(g, BlockOf(g, cur), PageOf(g, cur) + 1);
  }
}
