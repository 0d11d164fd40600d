/** The greedy FTL itself: its tables in memory, its NAND bank, and the operations that update them in place. */
module GreedyFtl {
  import opened Sectors
  import opened GreedyState
  import opened GreedyWrite
  import opened GreedyGc
  import opened GreedyFormat
  import opened PlainDisk

  /** The page that is written next, and what it takes to get at it: r is the state in which the active block has been
      closed, if that is full. */
  ghost predicate Assigned(s: State, cur: nat, r: State, u: State, vpn: nat) {
    var a := BlockOf(s.g, cur);
    if PageOf(s.g, cur) != s.g.pages - 2 then u == s && vpn == cur + 1
    else
      && Closed(s, r, a)
      && if s.free == 2 then Collected(r, u, vpn)
         else u == r && IsNext(r, a, BlockOf(s.g, vpn)) && PageOf(s.g, vpn) == 0
  }

  class Ftl {
    const g: Geometry
    const pageMap: array<nat>       // PAGE_MAP: lpn to vpn, 0 when never written
    const vcount: array<nat>        // VCOUNT: valid pages of each vblock
    const lpnList: array<nat>       // lpn_list_of_cur_vblock
    const wrBuf: array<Sector>      // the frame of the SATA write buffer in use
    var flash: seq<seq<Cell>>       // the NAND bank, by vblock and page
    var curWriteVpn: nat
    var gcVblock: nat
    var freeBlkCnt: int

    ghost predicate Separate()
      reads this
    {
      && pageMap != vcount && pageMap != lpnList && vcount != lpnList
      && (wrBuf as object) !in {pageMap as object, vcount as object, lpnList as object}
      && wrBuf.Length == g.sects
    }

    /** The tables as one value. */
    ghost function Snap(): State
      reads this, pageMap, vcount, lpnList
    {
      State(g, pageMap[..], vcount[..], lpnList[..], flash, gcVblock, freeBlkCnt)
    }

    ghost predicate Valid()
      reads this, pageMap, vcount, lpnList
    {
      Separate() && g.HasSpare() && Inv(Snap(), curWriteVpn)
    }

    /** The sectors the host sees. */
    ghost function FlatDisk(): (f: seq<Sector>)
      requires Valid()
      reads this, pageMap, vcount, lpnList
      ensures |f| == Capacity(g)
    {
      DiskIsPaged(Snap());
      Flat(g, Disk(Snap()))
    }

    // ---- format -------------------------------------------------------------------------------

    /** ftl_open: the bank is formatted, whatever was on it; the host then sees a disk of all ones. */
    constructor (g: Geometry, flash: seq<seq<Cell>>)
      requires g.Valid() && g.HasSpare()
      requires |flash| == g.blocks && forall b | 0 <= b < |flash| :: |flash[b]| == g.pages
      ensures Valid() && this.g == g
      ensures fresh(pageMap) && fresh(vcount) && fresh(lpnList) && fresh(wrBuf)
      ensures forall a | 0 <= a < Capacity(g) :: FlatDisk()[a] == ALL_ONES
    {
      this.g := g;
      this.flash := flash;
      pageMap := new nat[g.lpages](_ => 0);
      vcount := new nat[g.blocks](_ => 0);
      lpnList := new nat[g.pages](_ => 0);
      wrBuf := new Sector[g.sects];
      new;
      Format();
    }

    method Format()
      requires Separate() && Shape(Snap()) && g.HasSpare()
      requires (forall l | 0 <= l < pageMap.Length :: pageMap[l] == 0)
      requires (forall p | 0 <= p < lpnList.Length :: lpnList[p] == 0)
      modifies this`flash, this`curWriteVpn, this`gcVblock, this`freeBlkCnt, vcount
      ensures Valid() && forall a | 0 <= a < Capacity(g) :: FlatDisk()[a] == ALL_ONES
    {
      EraseGoodBlocks();
      InitMetadata();
      FormattedIsBlank(Snap(), curWriteVpn);
      DiskIsPaged(Snap());
      forall a | 0 <= a < Capacity(g) ensures FlatDisk()[a] == ALL_ONES {
        InRange(g, a);
      }
    }

    /** format: erase every good block except block 0, and count no valid page in it. */
    method EraseGoodBlocks()
      requires Separate() && Shape(Snap())
      modifies this`flash, vcount
      ensures Shape(Snap()) && CountsAbove(g, vcount[..][0 := VC_MAX][1 := VC_MAX], 1)
      ensures forall b: nat, p: nat | Good(g, b) && p < g.pages :: flash[b][p] == Erased
    {
      for v := 1 to g.blocks
        invariant Shape(Snap())
        invariant forall b | 2 <= b < v :: vcount[b] == if Good(g, b) then 0 else VC_MAX
        invariant forall b: nat, p: nat | Good(g, b) && b < v && p < g.pages :: flash[b][p] == Erased
      {
        if v in g.bad {
          vcount[v] := VC_MAX;
        } else {
          BlockErase(v);
          vcount[v] := 0;
        }
      }
    }

    /** The scan for the next good block, which the ASSERTs of init_metadata_sram say never leaves the bank. */
    method NextGood(v: nat) returns (w: nat)
      requires 1 <= v && GoodAbove(g, v) != {}
      ensures v < w && Good(g, w) && |GoodAbove(g, w)| == |GoodAbove(g, v)| - 1
      ensures forall b: nat | v < b < w :: !Good(g, b)
    {
      GoodAboveNext(g, v);
      w := v + 1;
      while w in g.bad
        invariant v < w < g.blocks
        invariant forall b: nat | v < b < w :: !Good(g, b)
        invariant |GoodAbove(g, w)| == |GoodAbove(g, v)| - (if Good(g, w) then 1 else 0)
        decreases g.blocks - w
      {
        GoodAboveNext(g, w);
        w := w + 1;
      }
    }

    /** The blocks that hold the page map, which user data never enters. */
    method AssignMapBlocks() returns (vblock: nat)
      requires Separate() && Shape(Snap()) && CountsAbove(g, vcount[..], 1)
      modifies vcount
      ensures g.meta - 1 <= vblock && CountsAbove(g, vcount[..], vblock) && |GoodAbove(g, vblock)| == g.Usable()
    {
      vblock := 1;
      GoodAboveOne(g);
      for mapblk := 0 to g.meta - 2
        invariant 1 + mapblk <= vblock && CountsAbove(g, vcount[..], vblock)
        invariant |GoodAbove(g, vblock)| + mapblk == g.blocks - 2 - |g.bad|
      {
        vblock := NextGood(vblock);
        vcount[vblock] := VC_MAX;
      }
    }

    /** init_metadata_sram: the map blocks, the reserve block and the first block to write. */
    method InitMetadata()
      requires Separate() && Shape(Snap()) && CountsAbove(g, vcount[..][0 := VC_MAX][1 := VC_MAX], 1)
      requires forall b: nat, p: nat | Good(g, b) && p < g.pages :: flash[b][p] == Erased
      requires (forall l | 0 <= l < pageMap.Length :: pageMap[l] == 0)
      requires (forall p | 0 <= p < lpnList.Length :: lpnList[p] == 0)
      modifies this`curWriteVpn, this`gcVblock, this`freeBlkCnt, vcount
      ensures Separate() && Formatted(Snap(), curWriteVpn)
    {
      vcount[0], vcount[1] := VC_MAX, VC_MAX;
      var vblock := AssignMapBlocks();
      freeBlkCnt := g.blocks - g.meta - |g.bad|;
      gcVblock := NextGood(vblock);
      vcount[gcVblock] := VC_MAX;
      vblock := NextGood(gcVblock);
      curWriteVpn := Vpn(g, vblock, 0);
      FormattedFrom(Snap(), vblock, curWriteVpn);
    }

    // ---- the NAND bank ----------------------------------------------------------------------

    /** nand_page_ptprogram: a page can be programmed once after an erase, and pages of a block in ascending order. */
    method PageProgram(b: nat, p: nat, cell: Cell)
      requires b < |flash| && p < |flash[b]|
      requires forall q | p <= q < |flash[b]| :: flash[b][q] == Erased
      modifies this`flash
      ensures flash == old(flash)[b := old(flash)[b][p := cell]]
    {
      flash := flash[b := flash[b][p := cell]];
    }

    /** nand_page_copyback */
    method PageCopyback(sb: nat, sp: nat, b: nat, p: nat)
      requires sb < |flash| && sp < |flash[sb]| && b < |flash| && p < |flash[b]|
      requires forall q | p <= q < |flash[b]| :: flash[b][q] == Erased
      modifies this`flash
      ensures flash == old(flash)[b := old(flash)[b][p := old(flash)[sb][sp]]]
    {
      PageProgram(b, p, flash[sb][sp]);
    }

    /** nand_block_erase */
    method BlockErase(b: nat)
      requires b < |flash|
      modifies this`flash
      ensures flash == old(flash)[b := seq(|old(flash)[b]|, _ => Erased)]
    {
      flash := flash[b := seq(|flash[b]|, _ => Erased)];
    }

    // ---- choosing the page for the next write ------------------------------------------------

    /** get_vt_vblock: the block with the fewest valid pages. */
    method VictimBlock() returns (vt: nat)
      requires Separate() && g.HasSpare() && Tables(Snap())
      ensures IsData(Snap(), vt) && vt < g.blocks && Vc(Snap(), vt) < g.pages - 2
      ensures forall b: nat | b < g.blocks :: Vc(Snap(), vt) <= Vc(Snap(), b)
    {
      vt := 0;
      for b := 0 to vcount.Length
        invariant vt < vcount.Length
        invariant forall c | 0 <= c < b :: vcount[vt] <= vcount[c]
      {
        if vcount[b] < vcount[vt] {
          vt := b;
        }
      }
      assert forall b: nat | b < g.blocks :: Vc(Snap(), b) == vcount[b];
      VictimHasRoom(Snap(), vt);
    }

    /** The lpn list of the victim, read from its last page into SRAM. */
    method LoadList(vt: nat)
      requires Separate() && CanCollect(Snap(), vt)
      modifies lpnList
      ensures Separate() && Copying(old(Snap()), Snap(), vt, 0, 0)
    {
      ghost var s := Snap();
      assert IsClosed(s, vt);
      assert flash[vt][g.pages - 1] == At(s, vt, LastPage(g));
      var names := flash[vt][g.pages - 1].lpns;
      ListLoaded(s, names, vt);
      forall i | 0 <= i < lpnList.Length {
        lpnList[i] := names[i];
      }
      assert lpnList[..] == names;
      CopyStarts(s, Snap(), vt);
    }

    /** One turn of the copy loop: page j of the victim, if it is the newest copy of its lpn, goes to page k. */
    method CopyPage(ghost s: State, vt: nat, j: nat, k: nat) returns (k': nat)
      requires Separate() && CanCollect(s, vt) && Copying(s, Snap(), vt, j, k) && j < LastPage(g) && s.g == g
      modifies this`flash, pageMap, lpnList
      ensures Separate() && Copying(s, Snap(), vt, j + 1, k')
    {
      ghost var t := Snap();
      var l := lpnList[j];
      assert l == Entry(g, t.list, j) < g.lpages;
      if pageMap[l] != Vpn(g, vt, j) {
        CopySkips(s, t, vt, j, k, j + 1);
        return k;
      }
      assert forall q | k <= q < |flash[gcVblock]| :: flash[gcVblock][q] == At(t, gcVblock, q);
      PageCopyback(vt, j, gcVblock, k);
      pageMap[l] := Vpn(g, gcVblock, k);
      lpnList[k] := l;
      UpdatesCopy(s, t, Snap(), vt, j, k, l);
      k' := k + 1;
    }

    /** The newest copies in the victim go to the reserve. */
    method CopyValid(ghost s: State, vt: nat) returns (k: nat)
      requires Separate() && s == Snap() && CanCollect(s, vt)
      modifies this`flash, pageMap, lpnList
      ensures Separate() && Copying(s, Snap(), vt, LastPage(g), k)
    {
      k := 0;
      LoadList(vt);
      for j := 0 to LastPage(g)
        invariant Separate() && Copying(s, Snap(), vt, j, k)
      {
        k := CopyPage(s, vt, j, k);
      }
    }

    /** The end of a collection: the victim is erased and becomes the reserve. */
    method FinishCollection(ghost s: State, vt: nat, k: nat, count: nat)
      requires Separate() && CanCollect(s, vt) && Copying(s, Snap(), vt, LastPage(g), k) && s.g == g
      requires count == Vc(s, vt) && forall b: nat | b < g.blocks :: Vc(s, vt) <= Vc(s, b)
      modifies this, vcount
      ensures Separate() && Ready(Snap(), curWriteVpn) && Disk(Snap()) == Disk(s)
      ensures Collected(s, Snap(), curWriteVpn)
    {
      ghost var t := Snap();
      var gcBlock := gcVblock;
      BlockErase(vt);
      vcount[vt] := VC_MAX;
      vcount[gcBlock] := count;
      curWriteVpn := Vpn(g, gcBlock, k);
      gcVblock := vt;
      freeBlkCnt := freeBlkCnt + 1;
      FinishIsInvisible(s, t, Snap(), vt, k);
    }

    /** garbage_collection: a block with the fewest valid pages is collected. */
    method GarbageCollection(ghost s: State)
      requires Separate() && g.HasSpare() && Tables(Snap()) && s == Snap()
      requires forall b: nat | IsData(Snap(), b) :: IsClosed(Snap(), b)
      modifies this, pageMap, vcount, lpnList
      ensures Separate() && Ready(Snap(), curWriteVpn)
      ensures Disk(Snap()) == Disk(s) && Collected(s, Snap(), curWriteVpn)
    {
      var vt := VictimBlock();
      var count := vcount[vt];
      var k := CopyValid(s, vt);
      FinishCollection(s, vt, k, count);
    }

    /** The active block is full: its lpn list goes to its last page, and it counts as closed. */
    method CloseBlock(ghost s: State)
      requires Separate() && Inv(Snap(), curWriteVpn) && s == Snap()
      modifies this`flash, this`freeBlkCnt, lpnList
      ensures Separate() && Core(Snap(), curWriteVpn) && IsClosed(Snap(), BlockOf(g, curWriteVpn))
      ensures Disk(Snap()) == Disk(s) && Closed(s, Snap(), BlockOf(g, curWriteVpn))
    {
      var vblock := BlockOf(g, curWriteVpn);
      assert At(s, vblock, g.pages - 1) == Erased;
      PageProgram(vblock, g.pages - 1, LpnList(lpnList[..]));
      forall i | 0 <= i < lpnList.Length {
        lpnList[i] := 0;
      }
      freeBlkCnt := freeBlkCnt - 1;
      ClosedByUpdates(s, Snap(), vblock);
      ClosingKeepsCore(s, Snap(), curWriteVpn);
    }

    /** The search upwards from block a for the next data block; there is one, so it never runs off the end. */
    method NextVblock(a: nat, ghost next: nat) returns (vblock: nat)
      requires Separate() && Shape(Snap()) && a < next < g.blocks && IsData(Snap(), next)
      ensures vblock <= next && IsNext(Snap(), a, vblock)
    {
      vblock := a + 1;
      assert vcount[next] == Vc(Snap(), next);
      while vcount[vblock] == VC_MAX
        invariant a < vblock <= next
        invariant forall c: nat | a < c < vblock :: vcount[c] == VC_MAX
        decreases next - vblock
      {
        vblock := vblock + 1;
      }
    }

    /** The active block is closed and others are still erased: the write pointer moves up to the next one. */
    method NextBlock()
      requires Separate() && g.HasSpare() && Core(Snap(), curWriteVpn) && freeBlkCnt != 1
      requires IsClosed(Snap(), BlockOf(g, curWriteVpn))
      modifies this`curWriteVpn
      ensures Separate() && Ready(Snap(), curWriteVpn)
      ensures PageOf(g, curWriteVpn) == 0 && IsNext(Snap(), BlockOf(g, old(curWriteVpn)), BlockOf(g, curWriteVpn))
    {
      ghost var next := NextBlockExists(Snap(), curWriteVpn);
      var vblock := NextVblock(BlockOf(g, curWriteVpn), next);
      NextBlockIsReady(Snap(), curWriteVpn, vblock);
      VpnParts(g, vblock, 0);
      curWriteVpn := Vpn(g, vblock, 0);
    }

    /** The active block is full. */
    method LeaveBlock(ghost s: State) returns (ghost r: State)
      requires Valid() && PageOf(g, curWriteVpn) == g.pages - 2 && s == Snap()
      modifies this, pageMap, vcount, lpnList
      ensures Separate() && Ready(Snap(), curWriteVpn)
      ensures Disk(Snap()) == Disk(s) && Assigned(s, old(curWriteVpn), r, Snap(), curWriteVpn)
    {
      CloseBlock(s);
      r := Snap();
      if freeBlkCnt == 1 {
        AllClosedForGc();
        GarbageCollection(r);
      } else {
        NextBlock();
      }
    }

    /** assign_new_write_vpn: the next page of the active block; or, when that is full, page 0 of the next data block
        above; or, when all of them are full, the first free page that a collection leaves. */
    method AssignNewWriteVpn() returns (vpn: nat, ghost r: State)
      requires Valid()
      modifies this, pageMap, vcount, lpnList
      ensures Valid() && Ready(Snap(), vpn) && vpn == curWriteVpn
      ensures Disk(Snap()) == old(Disk(Snap())) && Assigned(old(Snap()), old(curWriteVpn), r, Snap(), vpn)
    {
      if PageOf(g, curWriteVpn) == g.pages - 2 {
        r := LeaveBlock(Snap());
      } else {
        r := Snap();
        NextPageIsReady(r, curWriteVpn);
        curWriteVpn := curWriteVpn + 1;
      }
      vpn := curWriteVpn;
    }

    lemma AllClosedForGc()
      requires Tables(Snap()) && freeBlkCnt == 1
      ensures forall b: nat | IsData(Snap(), b) :: IsClosed(Snap(), b)
    {
      forall b: nat | IsData(Snap(), b) ensures IsClosed(Snap(), b) {
        AllClosedAtGc(Snap(), b);
      }
    }

    // ---- writing one page ---------------------------------------------------------------------

    /** A page read, or the copy of one, into part of the write buffer frame. */
    method CopyToFrame(src: seq<Sector>, begin: nat, end: nat)
      requires begin <= end <= wrBuf.Length == |src|
      modifies wrBuf
      ensures forall i | 0 <= i < wrBuf.Length :: wrBuf[i] == if begin <= i < end then src[i] else old(wrBuf[i])
    {
      forall i | begin <= i < end {
        wrBuf[i] := src[i];
      }
    }

    /** The left and right holes of a partial write, filled from the old copy of the page. */
    method FillHoles(page: seq<Sector>, offset: nat, count: nat)
      requires offset + count <= wrBuf.Length == |page|
      modifies wrBuf
      ensures forall i | 0 <= i < wrBuf.Length ::
        wrBuf[i] == if offset <= i < offset + count then old(wrBuf[i]) else page[i]
    {
      if count != wrBuf.Length {
        if count <= 8 && offset != 0 {
          var ftlBuf := page;     // the whole page, read at once
          CopyToFrame(ftlBuf, 0, offset);
          if offset + count < wrBuf.Length {
            CopyToFrame(ftlBuf, offset + count, wrBuf.Length);
          }
        } else {
          if offset != 0 {
            CopyToFrame(page, 0, offset);
          }
          if offset + count < wrBuf.Length {
            CopyToFrame(page, offset + count, wrBuf.Length);
          }
        }
      }
    }

    /** What write_page programs: the new sectors over the old copy of the page, or over a blank page. */
    method MergedSectors(lpn: nat, offset: nat, count: nat) returns (sectors: seq<Sector>)
      requires Separate() && Shape(Snap()) && MapOk(Snap()) && lpn < g.lpages && offset + count <= g.sects
      modifies wrBuf
      ensures |Content(Snap(), lpn)| == g.sects
      ensures sectors == Overlay(Content(Snap(), lpn), offset, old(wrBuf[offset..offset + count]))
    {
      var oldVpn := pageMap[lpn];
      if oldVpn == 0 {
        return Overlay(Blank(g), offset, wrBuf[offset..offset + count]);
      }
      assert Mapped(Snap(), lpn);
      var vblock, page := BlockOf(g, oldVpn), PageOf(g, oldVpn);
      assert flash[vblock][page] == At(Snap(), vblock, page);
      FillHoles(Readout(g, flash[vblock][page]), offset, count);
      sectors := wrBuf[..];
    }

    /** The end of write_page: the new copy is programmed and every table follows. */
    method CommitPage(lpn: nat, newVpn: nat, sectors: seq<Sector>)
      requires Separate() && g.HasSpare() && Ready(Snap(), newVpn) && lpn < g.lpages && |sectors| == g.sects
      requires newVpn != 0
      modifies this`flash, pageMap, vcount, lpnList
      ensures Separate() && Inv(Snap(), newVpn)
      ensures Disk(Snap()) == old(Disk(Snap()))[lpn := sectors]
    {
      ghost var s := Snap();
      var oldVpn := pageMap[lpn];
      if oldVpn != 0 {
        OldCopyCounted(s, lpn);
        var vblock := BlockOf(g, oldVpn);
        vcount[vblock] := vcount[vblock] - 1;
      }
      var block, page := BlockOf(g, newVpn), PageOf(g, newVpn);
      assert forall q: nat | page <= q < g.pages :: At(s, block, q) == flash[block][q];
      PageProgram(block, page, Data(sectors));
      lpnList[page] := lpn;
      pageMap[lpn] := newVpn;
      vcount[block] := vcount[block] + 1;
      WroteByUpdates(s, Snap(), newVpn, lpn, sectors, block, page);
      WriteKeepsInv(s, Snap(), newVpn, lpn, sectors);
    }

    /** write_page: count sectors from offset of the write buffer frame become the newest ones of the page. */
    method WritePage(lpn: nat, offset: nat, count: nat)
      requires Valid() && lpn < g.lpages && 0 < count && offset + count <= g.sects
      modifies this, pageMap, vcount, lpnList, wrBuf
      ensures Valid() && lpn < |old(Disk(Snap()))| && |old(Disk(Snap()))[lpn]| == g.sects
      ensures Disk(Snap()) ==
        old(Disk(Snap()))[lpn := Overlay(old(Disk(Snap()))[lpn], offset, old(wrBuf[offset..offset + count]))]
    {
      DiskIsPaged(Snap());
      var newVpn, _ := AssignNewWriteVpn();
      RoomInActive(Snap(), newVpn);
      PointerIsNotNull(Snap(), newVpn);
      var sectors := MergedSectors(lpn, offset, count);
      CommitPage(lpn, newVpn, sectors);
    }

    // ---- the host interface -------------------------------------------------------------------

    method Locate(lba: nat) returns (lpn: nat, offset: nat)
      requires 1 <= g.sects
      ensures Cursor(g, lba, lpn, offset)
    {
      lpn, offset := lba / g.sects, lba % g.sects;
      CursorStart(g, lba);
    }

    /** The host transfers the next sectors of a write request into the write buffer frame. */
    method HostTransfer(data: seq<Sector>, from: nat, offset: nat, count: nat)
      requires from + count <= |data| && offset + count <= wrBuf.Length
      modifies wrBuf
      ensures wrBuf[offset..offset + count] == data[from..from + count]
    {
      forall i | offset <= i < offset + count {
        wrBuf[i] := data[from + i - offset];
      }
    }

    /** The part of a write request that falls in one page. */
    method WriteSome(lpn: nat, offset: nat, data: seq<Sector>, from: nat, count: nat, ghost at: nat)
      requires Valid() && from + count <= |data| && 0 < count && offset + count <= g.sects
      requires Cursor(g, at, lpn, offset) && at + count <= Capacity(g)
      modifies this, pageMap, vcount, lpnList, wrBuf
      ensures Valid() && FlatDisk() == Overlay(old(FlatDisk()), at, data[from..from + count])
    {
      LpnInRange(g, lpn, offset);
      HostTransfer(data, from, offset, count);
      DiskIsPaged(Snap());
      FlatOverlay(g, Disk(Snap()), lpn, offset, data[from..from + count]);
      WritePage(lpn, offset, count);
    }

    /** One turn of the loop of ftl_write. */
    method WriteTurn(lba: nat, data: seq<Sector>, done: nat, lpn: nat, offset: nat, ghost before: seq<Sector>)
      returns (count: nat)
      requires Valid() && |before| == Capacity(g) && lba + |data| <= Capacity(g) && done < |data|
      requires Cursor(g, lba + done, lpn, offset) && FlatDisk() == Overlay(before, lba, data[..done])
      modifies this, pageMap, vcount, lpnList, wrBuf
      ensures Valid() && 0 < count <= |data| - done && FlatDisk() == Overlay(before, lba, data[..done + count])
      ensures done + count < |data| ==> Cursor(g, lba + done + count, lpn + 1, 0)
    {
      count := if offset + (|data| - done) < g.sects then |data| - done else g.sects - offset;
      WriteSome(lpn, offset, data, done, count, lba + done);
      OverlayNext(before, lba, data, done, count);
      CursorAfter(g, lba + done, lpn, offset, count, |data| - done);
    }

    /** ftl_write */
    method FtlWrite(lba: nat, data: seq<Sector>)
      requires Valid() && lba + |data| <= Capacity(g)
      modifies this, pageMap, vcount, lpnList, wrBuf
      ensures Valid() && FlatDisk() == Overlay(old(FlatDisk()), lba, data)
    {
      ghost var before := FlatDisk();
      OverlayEnds(before, lba, data);
      var lpn, offset := Locate(lba);
      var done: nat := 0;
      while done < |data|
        invariant done <= |data| && Valid()
        invariant done < |data| ==> Cursor(g, lba + done, lpn, offset)
        invariant FlatDisk() == Overlay(before, lba, data[..done])
      {
        var count := WriteTurn(lba, data, done, lpn, offset, before);
        done := done + count;
        lpn, offset := lpn + 1, 0;
      }
    }

    /** The part of a read request that falls in one page: from NAND, or all ones if the page was never written. */
    method ReadSome(lpn: nat, offset: nat, count: nat, ghost at: nat) returns (part: seq<Sector>)
      requires Valid() && offset + count <= g.sects && Cursor(g, at, lpn, offset) && 0 < count
      requires at + count <= Capacity(g)
      ensures part == FlatDisk()[at..at + count]
    {
      LpnInRange(g, lpn, offset);
      DiskIsPaged(Snap());
      FlatSlice(g, Disk(Snap()), lpn, offset, count);
      part := ReadPart(lpn, offset, count);
    }

    method ReadPart(lpn: nat, offset: nat, count: nat) returns (part: seq<Sector>)
      requires Separate() && Shape(Snap()) && MapOk(Snap()) && lpn < g.lpages && offset + count <= g.sects
      ensures |Content(Snap(), lpn)| == g.sects && part == Content(Snap(), lpn)[offset..offset + count]
    {
      var vpn := pageMap[lpn];
      if vpn == 0 {
        part := seq(count, _ => ALL_ONES);
      } else {
        assert Mapped(Snap(), lpn);
        var vblock, page := BlockOf(g, vpn), PageOf(g, vpn);
        assert flash[vblock][page] == At(Snap(), vblock, page);
        part := Readout(g, flash[vblock][page])[offset..offset + count];
      }
    }

    /** One turn of the loop of ftl_read. */
    method ReadTurn(at: nat, remaining: nat, lpn: nat, offset: nat) returns (count: nat, part: seq<Sector>)
      requires Valid() && 0 < remaining && at + remaining <= Capacity(g) && Cursor(g, at, lpn, offset)
      ensures 0 < count <= remaining && part == FlatDisk()[at..at + count]
      ensures count < remaining ==> Cursor(g, at + count, lpn + 1, 0)
    {
      count := if offset + remaining < g.sects then remaining else g.sects - offset;
      part := ReadSome(lpn, offset, count, at);
      CursorAfter(g, at, lpn, offset, count, remaining);
    }

    /** ftl_read */
    method FtlRead(lba: nat, total: nat) returns (data: seq<Sector>)
      requires Valid() && lba + total <= Capacity(g)
      ensures data == FlatDisk()[lba..lba + total]
    {
      ghost var disk := FlatDisk();
      var lpn, offset := Locate(lba);
      data := [];
      while |data| < total
        invariant |data| <= total
        invariant |data| < total ==> Cursor(g, lba + |data|, lpn, offset)
        invariant data == disk[lba..lba + |data|]
      {
        var count, part := ReadTurn(lba + |data|, total - |data|, lpn, offset);
        assert data + part == disk[lba..lba + |data| + count] by { SliceAppend(disk, lba, lba + |data|, count); }
        data := data + part;
        lpn, offset := lpn + 1, 0;
      }
    }

    /** One turn of the command loop. */
    method ServeOne(c: Command) returns (answer: seq<seq<Sector>>)
      requires Valid() && InBounds(Capacity(g), c)
      modifies this, pageMap, vcount, lpnList, wrBuf
      ensures Valid() && (answer, FlatDisk()) == AnswerOf(old(FlatDisk()), c)
    {
      match c
      case Read(lba, count) =>
        var data := FtlRead(lba, count);
        answer := [data];
      case Write(lba, data) =>
        FtlWrite(lba, data);
        answer := [];
    }

    /** The command loop: every read is answered as by a plain array of sectors, whatever garbage is collected
        along the way. */
    method Serve(commands: seq<Command>) returns (answers: seq<seq<Sector>>)
      requires Valid() && AllInBounds(Capacity(g), commands)
      modifies this, pageMap, vcount, lpnList, wrBuf
      ensures Valid() && answers == Answers(old(FlatDisk()), commands)
    {
      ghost var before := FlatDisk();
      answers := [];
      for i := 0 to |commands|
        invariant Valid() && |FlatDisk()| == Capacity(g)
        invariant Answers(before, commands) == answers + Answers(FlatDisk(), commands[i..])
      {
        assert InBounds(Capacity(g), commands[i]);
        AnswersFrom(FlatDisk(), commands, i);
        var answer := ServeOne(commands[i]);
        answers := answers + answer;
      }
    }
  }
}
