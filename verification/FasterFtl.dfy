/** The FASTer FTL: the operations on its tables and its flash. */
module FasterFtl {
  import opened Sectors
  import opened FreeRing
  import opened FasterState
  import opened FasterMerge
  import opened FasterIsol
  import opened FasterGc
  import opened FasterTurns
  import opened FasterWrite
  import opened FasterSteps
  import opened FasterAfter
  import opened FasterDisk
  import opened FasterRuns

  class Ftl {
    const g: Geometry
    const ring: Ring               // FREE_BMT, with its two positions and its count
    var st: State
    var corrPage: Pg               // corr_ref[0]: the page written last
    var corrCount: nat             // corr_ref[1]
    var pace: Pace

    /** The free ring has the blocks that the state says are free, in that order. */
    ghost predicate Linked()
      reads this`st, ring, ring.slots
    {
      ring.Valid() && ring.free == st.free && ring.max == g.frees
    }

    ghost predicate Valid()
      reads this`st, ring, ring.slots
    {
      Inv(g, st) && Linked()
    }

    /** format: the good blocks are erased and shared out, and every page reads as all ones. */
    constructor (g: Geometry, good: seq<nat>)
      requires g.Valid() && |good| == g.datas + g.frees + g.isols + g.used
      requires (forall i | 0 <= i < |good| :: good[i] < g.blocks)
      requires forall i, j | 0 <= i < j < |good| :: good[i] != good[j]
      ensures Ready() && this.g == g && Now() == Start(g, good) && forall d :: Resolve(g, st, d) == Blank(g)
    {
      this.g := g;
      ring := new Ring(good[g.datas..g.datas + g.frees]);
      st := Formatted(g, good);
      corrPage, corrCount, pace := NOWHERE, NONE, Pace(0, 0, g.pages / 4, g.pages / 4, false);
      new;
      FormattedIsOk(g, st, good);
    }

    /** Between host commands there is room in the random log area, and the sequential log block is not full. */
    ghost predicate Ready()
      reads this`st, ring, ring.slots
    {
      Valid() && st.rwFree > 0 && st.swNext < g.pages
    }

    // ---- the elements ------------------------------------------------------------------------------------------

    /** The next block of the ring. */
    method GetFreeVbn() returns (v: nat)
      requires Linked() && st.free != []
      modifies this`st, ring
      ensures Linked() && v == old(st).free[0] && st == old(st).(free := old(st).free[1..])
    {
      v := ring.GetFreeVbn();
      st := st.(free := st.free[1..]);
    }

    /** nand_block_erase, and the block goes back to the ring. */
    method EraseAndFree(v: nat)
      requires Linked() && |st.free| < g.frees
      modifies this`st, ring, ring.slots
      ensures Linked() && st == old(st).(flash := Erase(g, old(st).flash, v), free := old(st).free + [v])
    {
      ring.RetFreeVbn(v);
      st := st.(flash := Erase(g, st.flash, v), free := st.free + [v]);
    }

    /** get_vpn, as block and page. */
    function GetVpn(d: Pg): Pg
      reads this
    {
      if d !in st.vc then Pg(DataVbn(st, d.b), d.o)
      else if d in st.hash then Pg(LogVbn(g, st, st.hash[d].b), st.hash[d].o) else NOWHERE
    }

    /** nand_page_copyback. */
    method CopyBack(src: Pg, v: nat, o: nat)
      modifies this`st
      ensures st == old(st).(flash := Program(old(st).flash, v, o, Page(Read(g, CellAt(old(st).flash, src.b, src.o)))))
    {
      st := st.(flash := Program(st.flash, v, o, Page(Read(g, CellAt(st.flash, src.b, src.o)))));
    }

    /** shashtbl_remove and mark_valid_in_data_blk. */
    method Forget(d: Pg)
      requires st.vc == st.hash.Keys
      modifies this`st
      ensures st == old(st).(hash := old(st).hash - {d}, vc := old(st).vc - {d}) && st.vc == st.hash.Keys
    {
      st := st.(hash := st.hash - {d}, vc := st.vc - {d});
    }

    // ---- merges ------------------------------------------------------------------------------------------------

    /** The end of switch_merge and partial_merge: the log block becomes the data block. */
    method SwitchTables()
      requires Linked() && Shape(g, st) && st.swLbn < g.datas && st.vc == st.hash.Keys
      modifies this`st, ring, ring.slots
      ensures Linked() && st == AfterSwitch(g, old(st), old(st).hash, old(st).flash)
    {
      var lbn, oldVbn, logVbn := st.swLbn, st.data[st.swLbn], st.log[0];
      st := st.(data := st.data[lbn := logVbn], swLbn := NONE, swNext := 0);
      var v := GetFreeVbn();
      st := st.(log := st.log[0 := v]);
      EraseAndFree(oldVbn);
    }

    /** switch_merge: the sequential log block is full, and holds a copy of every page of its data block; it becomes the
        data block. Pages with newer copies elsewhere in the log area keep those. */
    method SwitchMerge()
      requires Valid() && st.swNext == g.pages
      modifies this`st, ring, ring.slots
      ensures Valid() && SameContent(g, old(st), st) && Blocks(g, st) == Blocks(g, old(st))
      ensures old(st).swLbn < g.datas && st == SwMerged(g, old(st))
    {
      ghost var st0 := st;
      var lbn, t := st.swLbn, LogVbn(g, st, 0);
      assert OwnerOk(g, st, LogOf(0)) && VbnOf(g, st, LogOf(0)) == t;
      HashNext(st0, lbn, 0, g.pages);
      for o := 0 to g.pages
        invariant st == st0.(hash := HashAfter(st0, lbn, o, g.pages), vc := st.hash.Keys) && Linked()
        invariant Building(g, st0, st.hash, st.flash, lbn, t, o, g.pages)
      {
        var d := Pg(lbn, o);
        assert d in st.hash && EntryOk(g, st0, d, st0.hash[d]);
        HashNext(st0, lbn, o, g.pages);
        if st.hash[d].b != 0 {
          OtherBlock(g, st0, st.hash[d].b);
          StepKeeps(g, st0, st.hash, st.flash, lbn, t, o, g.pages);
        } else {
          StepInPlace(g, st0, st.hash, st.flash, lbn, t, o, g.pages);
          Forget(d);
        }
      }
      OthersElsewhere(g, st0);
      BuildingEnds(g, st0, st.hash, st.flash, lbn, t, g.pages);
      FlashStarts(g, st0, lbn, t, g.pages, g.pages);
      SwitchMergeKeeps(g, st0, st.hash, st.flash);
      SwitchTables();
    }

    /** The copy of page o in partial_merge and full_merge: from where its newest copy is into the block that is
        built. */
    method CopyNewest(ghost st0: State, d: Pg, t: nat, ghost m: nat)
      requires Inv(g, st0) && st == st0.(hash := st.hash, vc := st.hash.Keys, flash := st.flash, free := st.free)
      requires Building(g, st0, st.hash, st.flash, d.b, t, d.o, m) && m <= d.o < g.pages && Where(g, st0, d).b != t
      modifies this`st
      ensures st == st0.(hash := st.hash, vc := st.hash.Keys, flash := st.flash, free := old(st).free)
      ensures Building(g, st0, st.hash, st.flash, d.b, t, d.o + 1, m) && st.hash == old(st).hash - {d}
      ensures st.flash == Program(old(st).flash, t, d.o, Page(Resolve(g, st0, d)))
    {
      SourceIsOld(g, st0, st.hash, st.flash, d.b, t, d.o, m, d);
      StepCopies(g, st0, st.hash, st.flash, d.b, t, d.o, m);
      NotMovedYet(g, st0, st, d, t, m);
      MoveTo(d, t, d.o);
    }

    method MoveTo(d: Pg, v: nat, o: nat)
      requires st.vc == st.hash.Keys
      modifies this`st
      ensures st == old(st).(hash := old(st).hash - {d}, vc := old(st).vc - {d},
                             flash := Program(old(st).flash, v, o, Page(Resolve(g, old(st), d))))
    {
      var src := GetVpn(d);
      if d in st.vc {
        Forget(d);
      }
      CopyBack(src, v, o);
      assert old(st).hash - {d} == st.hash && old(st).vc - {d} == st.vc;
    }

    /** The first n pages of data block lbn have been merged into block t. */
    ghost function PartMerged(st0: State, lbn: nat, t: nat, n: nat, m: nat): State {
      var h := HashAfter(st0, lbn, n, m);
      st0.(hash := h, vc := h.Keys, flash := FlashAfter(g, st0, lbn, t, n, m))
    }

    /** A page that the block has already: its entry goes, unless the newest copy is elsewhere in the log area. */
    method ForgetOne(ghost st0: State, lbn: nat, ghost t: nat, o: nat, ghost m: nat)
      requires Inv(g, st0) && st == PartMerged(st0, lbn, t, o, m) && o < m <= g.pages
      requires lbn == st0.swLbn != NONE && t == LogVbn(g, st0, 0) && m == st0.swNext
      requires Building(g, st0, st.hash, st.flash, lbn, t, o, m)
      modifies this`st
      ensures st == PartMerged(st0, lbn, t, o + 1, m)
      ensures Building(g, st0, st.hash, st.flash, lbn, t, o + 1, m)
    {
      var d := Pg(lbn, o);
      HashNext(st0, lbn, o, m);
      FlashStarts(g, st0, lbn, t, o, m);
      FlashStarts(g, st0, lbn, t, o + 1, m);
      assert d in st.hash && EntryOk(g, st0, d, st0.hash[d]);
      if st.hash[d].b == 0 {
        StepInPlace(g, st0, st.hash, st.flash, lbn, t, o, m);
        Forget(d);
      } else {
        OtherBlock(g, st0, st.hash[d].b);
        StepKeeps(g, st0, st.hash, st.flash, lbn, t, o, m);
      }
    }

    /** A page of the rest of the block is copied from wherever its newest copy is. */
    method FillOne(ghost st0: State, lbn: nat, t: nat, o: nat, ghost m: nat)
      requires Inv(g, st0) && st == PartMerged(st0, lbn, t, o, m) && m <= o < g.pages
      requires lbn == st0.swLbn != NONE && t == LogVbn(g, st0, 0) && m == st0.swNext
      requires Building(g, st0, st.hash, st.flash, lbn, t, o, m)
      modifies this`st
      ensures st == PartMerged(st0, lbn, t, o + 1, m)
      ensures Building(g, st0, st.hash, st.flash, lbn, t, o + 1, m)
    {
      HashNext(st0, lbn, o, m);
      FlashNext(g, st0, lbn, t, o, m);
      RestIsElsewhere(g, st0, Pg(lbn, o));
      CopyNewest(st0, Pg(lbn, o), t, m);
    }

    method FillUp(lbn: nat, t: nat, m: nat)
      requires Inv(g, st) && lbn == st.swLbn != NONE && t == LogVbn(g, st, 0) && m == st.swNext
      requires Building(g, st, st.hash, st.flash, lbn, t, 0, m)
      modifies this`st
      ensures st == PartMerged(old(st), lbn, t, g.pages, m)
      ensures Building(g, old(st), st.hash, st.flash, lbn, t, g.pages, m)
    {
      ghost var st0 := st;
      HashNext(st0, lbn, 0, m);
      FlashStarts(g, st0, lbn, t, 0, m);
      for o := 0 to g.pages
        invariant st == PartMerged(st0, lbn, t, o, m)
        invariant Building(g, st0, st.hash, st.flash, lbn, t, o, m)
      {
        if o < m {
          ForgetOne(st0, lbn, t, o, m);
        } else {
          FillOne(st0, lbn, t, o, m);
        }
      }
    }

    /** partial_merge: the sequential log block is filled up with the newest copies of the rest of its data block, and
        becomes the data block. Pages before that with newer copies elsewhere in the log area keep those. */
    method PartialMerge()
      requires Valid() && 0 < st.swNext < g.pages
      modifies this`st, ring, ring.slots
      ensures Valid() && SameContent(g, old(st), st) && Blocks(g, st) == Blocks(g, old(st))
      ensures old(st).swLbn < g.datas && st == SwMerged(g, old(st))
    {
      ghost var st0 := st;
      var lbn, t, m := st.swLbn, LogVbn(g, st, 0), st.swNext;
      assert OwnerOk(g, st, LogOf(0)) && VbnOf(g, st, LogOf(0)) == t;
      FillUp(lbn, t, m);
      OthersElsewhere(g, st0);
      BuildingEnds(g, st0, st.hash, st.flash, lbn, t, m);
      SwitchMergeKeeps(g, st0, st.hash, st.flash);
      SwitchTables();
    }

    // ---- the full merge ----------------------------------------------------------------------------------------

    /** Page o is copied to the new block from wherever its newest copy is. */
    method CopyOne(ghost st0: State, lbn: nat, t: nat, o: nat)
      requires Inv(g, st0) && st == PartMerged(st0, lbn, t, o, 0).(free := st0.free[1..])
      requires lbn < g.datas && t == st0.free[0] && o < g.pages && Building(g, st0, st.hash, st.flash, lbn, t, o, 0)
      modifies this`st
      ensures st == PartMerged(st0, lbn, t, o + 1, 0).(free := st0.free[1..])
      ensures Building(g, st0, st.hash, st.flash, lbn, t, o + 1, 0)
    {
      HashNext(st0, lbn, o, 0);
      FlashNext(g, st0, lbn, t, o, 0);
      NotInFree(g, st0, Pg(lbn, o));
      CopyNewest(st0, Pg(lbn, o), t, 0);
    }

    /** All pages are. */
    method CopyAll(ghost st0: State, lbn: nat, t: nat)
      requires Inv(g, st0) && st == st0.(free := st0.free[1..]) && lbn < g.datas && t == st0.free[0]
      requires Building(g, st0, st.hash, st.flash, lbn, t, 0, 0)
      modifies this`st
      ensures st == PartMerged(st0, lbn, t, g.pages, 0).(free := st0.free[1..])
      ensures Building(g, st0, st.hash, st.flash, lbn, t, g.pages, 0)
    {
      HashNext(st0, lbn, 0, 0);
      FlashStarts(g, st0, lbn, t, 0, 0);
      for o := 0 to g.pages
        invariant st == PartMerged(st0, lbn, t, o, 0).(free := st0.free[1..])
        invariant Building(g, st0, st.hash, st.flash, lbn, t, o, 0)
      {
        CopyOne(st0, lbn, t, o);
      }
    }

    /** The loop of full_merge: the newest copies of data block lbn go to block t, which is the first of the free
        ring. */
    method BuildInFree(ghost st0: State, lbn: nat, t: nat)
      requires Inv(g, st0) && st == st0.(free := st0.free[1..]) && lbn < g.datas && t == st0.free[0]
      modifies this`st
      ensures st == PartMerged(st0, lbn, t, g.pages, 0).(free := st0.free[1..])
      ensures Rebuilt(g, st0, st.hash, st.flash, lbn, t)
    {
      BuildingStarts(g, st0, lbn);
      CopyAll(st0, lbn, t);
      EntriesNotInFree(g, st0);
      BuildingEnds(g, st0, st.hash, st.flash, lbn, t, 0);
    }

    /** The second half of full_merge: data block lbn is rebuilt in a free block. */
    method Rebuild(lbn: nat)
      requires Valid() && lbn < g.datas && lbn != st.swLbn
      modifies this`st, ring, ring.slots
      ensures Valid() && SameContent(g, old(st), st) && Blocks(g, st) == Blocks(g, old(st))
      ensures st == Remade(g, old(st), lbn)
    {
      ghost var st0 := st;
      var was := DataVbn(st, lbn);
      var t := GetFreeVbn();
      BuildInFree(st0, lbn, t);
      FullMergeKeeps(g, st0, st.hash, st.flash, lbn);
      st := st.(data := st.data[lbn := t]);
      EraseAndFree(was);
    }

    /** A victim block of the isolation area is done with: it takes a free block, and its own is erased. */
    method FreeVictim(b: nat)
      requires Valid() && b < g.isols && Abandoned(g, st, b) && Clear(st, Pg(b, 0)) && CanFreeIsol(g, st, b)
      modifies this`st, ring, ring.slots
      ensures Valid() && SameContent(g, old(st), st) && Blocks(g, st) == Blocks(g, old(st))
      ensures st == AfterFree(g, old(st), b)
    {
      FreeVictimKeeps(g, st, b);
      var was := st.isol[b];
      var v := GetFreeVbn();
      st := st.(vt := Pg(b, g.pages - 1), isol := st.isol[b := v], isolFree := st.isolFree + 1);
      EraseAndFree(was);
    }

    /** The victim page of the isolation area moves past pages that are no longer valid. */
    method Pass(vt: Pg, list: seq<Pg>)
      requires Valid() && Clear(st, vt) && vt.b < g.isols && vt.o < g.pages && |list| == g.pages
      requires AllAhead(g, st, vt, list) && Unused(g, st, vt) && vt == NextIsol(g, st.vt) && vt.o != Last(g)
      requires st.isolFree < g.isols
      modifies this`st
      ensures Valid() && SameContent(g, old(st), st) && Blocks(g, st) == Blocks(g, old(st))
      ensures st == old(st).(vt := vt, vtList := list)
    {
      PassKeepsInv(g, st, vt, list);
      st := st.(vt := vt, vtList := list);
    }

    /** The search of full_merge for the next valid page of the isolation area. It ends without one when the victim
        block has been scanned, which is then freed. It stops (ok is false) where an assertion of the code does not
        hold. */
    method FindVictim() returns (ok: bool, found: bool, vt: Pg, list: seq<Pg>)
      requires Valid() && st.isolFree < g.isols
      modifies this`st, ring, ring.slots
      ensures ok <==> CanMerge(g, old(st))
      ensures Valid() && SameContent(g, old(st), st) && Blocks(g, st) == Blocks(g, old(st))
      ensures ok && found ==> IsVictim(g, st, vt, list) && vt == Found(g, old(st)) && list == VictimNames(g, old(st))
      ensures ok && found ==> st == At(g, old(st), st.vt, st.vtList)
      ensures ok && !found ==> st == FullyMerged(g, old(st))
    {
      ghost var st0 := st;
      vt := NextIsol(g, st.vt);
      if !Clear(st, vt) || vt.o == g.pages - 1 {
        return false, false, vt, st.vtList;
      }
      NextIsAhead(g, st);
      ok := true;
      while true
        invariant VictimList(g, st, vt) == VictimNames(g, st0)
        invariant ok && Valid() && st == st0.(vt := st.vt, vtList := st.vtList) && Searching(g, st0, st, vt)
        invariant SameContent(g, st0, st) && Blocks(g, st) == Blocks(g, st0)
        decreases g.pages - vt.o
      {
        NextIsAhead(g, st);
        list := VictimList(g, st, vt);
        var d := list[vt.o];
        if d in st.hash && st.hash[d] == Pg(g.logs + vt.b, vt.o) {
          found := true;
          return;
        }
        PassUnused(st0, vt, list);
        if vt.o == g.pages - 2 {
          found := false;
          return;
        }
        vt := NextIsol(g, vt);
      }
    }

    /** A page that is not valid is passed, and after the last one of its block the block is given back. */
    method PassUnused(ghost st0: State, vt: Pg, list: seq<Pg>)
      requires Valid() && Shape(g, st0) && st == st0.(vt := st.vt, vtList := st.vtList) && Searching(g, st0, st, vt)
      requires st.isolFree < g.isols && vt.b < g.isols && vt.o < g.pages && |list| == g.pages
      requires AllAhead(g, st, vt, list) && list == VictimList(g, st, vt) == VictimNames(g, st0)
      requires !(list[vt.o] in st.hash && st.hash[list[vt.o]] == Pg(g.logs + vt.b, vt.o))
      modifies this`st, ring, ring.slots
      ensures Valid() && SameContent(g, old(st), st) && Blocks(g, st) == Blocks(g, old(st))
      ensures if vt.o == g.pages - 2 then st == FullyMerged(g, st0)
        else st == st0.(vt := vt, vtList := list) && Searching(g, st0, st, NextIsol(g, vt))
      ensures vt.o != g.pages - 2 ==> VictimList(g, st, NextIsol(g, vt)) == VictimNames(g, st0)
    {
      NotNamed(g, st, vt, list);
      Pass(vt, list);
      if vt.o == g.pages - 2 {
        NoneLeft(g, st);
        FreeVictim(vt.b);
      }
    }

    /** full_merge: the data block of the next valid page of the isolation area is merged. If an assertion of the code
        does not hold, it stops (ok is false), with nothing lost. */
    method FullMerge() returns (ok: bool)
      requires Valid() && st.swNext < g.pages && st.isolFree < g.isols
      modifies this`st, ring, ring.slots
      ensures ok <==> CanMerge(g, old(st))
      ensures Valid() && SameContent(g, old(st), st) && Blocks(g, st) == Blocks(g, old(st))
      ensures ok ==> st == FullyMerged(g, old(st))
    {
      ghost var st0 := st;
      var found, vt, list;
      ok, found, vt, list := FindVictim();
      if ok && found {
        MergeFound(st0, vt, list);
      }
    }

    /** The data block of the victim page is merged. */
    method MergeFound(ghost st0: State, vt: Pg, list: seq<Pg>)
      requires Valid() && st.swNext < g.pages && IsVictim(g, st, vt, list) && Inv(g, st0) && CanMerge(g, st0)
      requires st == At(g, st0, st.vt, st.vtList) && vt == Found(g, st0) && list == VictimNames(g, st0)
      modifies this`st, ring, ring.slots
      ensures Valid() && SameContent(g, old(st), st) && Blocks(g, st) == Blocks(g, old(st))
      ensures st == FullyMerged(g, st0)
    {
      FoundIsNamed(g, st0);
      VictimMergedAt(g, st0, st.vt, st.vtList, vt, list);
      if list[vt.o].b == st.swLbn {
        MergeStream(st0, vt, list);
      } else {
        MergeVictim(vt, list);
      }
    }

    /** The victim page is one of the data block that the sequential log block is for. */
    method MergeStream(ghost st0: State, vt: Pg, list: seq<Pg>)
      requires Valid() && IsVictim(g, st, vt, list) && list[vt.o].b == st.swLbn && st.swNext < g.pages
      requires Shape(g, st0) && st == At(g, st0, st.vt, st.vtList)
      modifies this`st, ring, ring.slots
      ensures Valid() && SameContent(g, old(st), st) && Blocks(g, st) == Blocks(g, old(st))
      ensures st0.swLbn < g.datas && st ==
        if st0.swNext <= list[vt.o].o then At(g, SwMerged(g, st0), vt, list)
        else VictimMerged(g, SwMerged(g, st0), vt, list)
    {
      ghost var before, d := st, list[vt.o];
      assert EntryOk(g, st, d, st.hash[d]);
      SwMergedAt(g, st0, st.vt, st.vtList);
      PartialMerge();
      VictimMergedAt(g, SwMerged(g, st0), st.vt, st.vtList, vt, list);
      StillAhead(g, before, st, vt, list);
      if list[vt.o] in st.hash && st.hash[list[vt.o]] == Pg(g.logs + vt.b, vt.o) {
        MergeVictim(vt, list);
      } else {
        Pass(vt, list);
      }
    }

    /** The second half of full_merge, and the end of its victim block. */
    method MergeVictim(vt: Pg, list: seq<Pg>)
      requires Valid() && IsVictim(g, st, vt, list) && list[vt.o].b != st.swLbn
      modifies this`st, ring, ring.slots
      ensures Valid() && SameContent(g, old(st), st) && Blocks(g, st) == Blocks(g, old(st))
      ensures list[vt.o].b < g.datas && st == VictimMerged(g, old(st), vt, list)
    {
      ghost var before := st;
      assert EntryOk(g, st, list[vt.o], st.hash[list[vt.o]]);
      Rebuild(list[vt.o].b);
      StillAhead(g, before, st, vt, list);
      Pass(vt, list);
      if vt.o == g.pages - 2 {
        NoneLeft(g, st);
        FreeVictim(vt.b);
      }
    }

    // ---- garbage collection --------------------------------------------------------------------------------------

    /** get_vt_log_lbn_for_gc: the next random log block in turn. */
    method VictimLog() returns (b: nat)
      requires Valid()
      ensures b == VictimOf(g, st.cur) && 0 < b < g.used
    {
      b := NextLog(st.cur.b);
      if b == 0 {
        b := 1;
      }
    }

    /** The loops that go on to the next log block that exists. */
    method NextLog(b: nat) returns (c: nat)
      requires Valid() && b < g.used
      ensures c == if b + 1 < g.used then b + 1 else 0
    {
      c := if b + 1 < g.logs then b + 1 else 0;
      while st.log[c] == NONE
        invariant c < g.logs && (c == 0 || b < c) && (b + 1 < g.used ==> c == b + 1)
        invariant (b + 1 == g.used ==> c == 0 || g.used <= c)
        decreases if c == 0 then 0 else g.logs - c
      {
        c := if c + 1 < g.logs then c + 1 else 0;
      }
    }

    /** The first o names of victim block b have been looked at: the list names all valid pages, and those names are
        only of valid pages. */
    ghost predicate Sifted(list: seq<Pg>, b: nat, o: nat, valid: nat, chanced: nat)
      reads this`st
    {
      && |list| == g.pages && o < g.pages
      && valid == ValidBefore(list, o) && chanced == ChancedBefore(list, st.sc, b, o)
      && (forall d | d in st.hash && st.hash[d].b == b :: st.hash[d].o < g.pages - 1 && Listed(list, st.hash[d].o, d))
      && (forall p | 0 <= p < o && list[p] != NOWHERE :: list[p] in st.hash && st.hash[list[p]] == Pg(b, p))
    }

    method SiftOne(b: nat, names: seq<Pg>, o: nat, before: nat, had: nat)
      returns (list: seq<Pg>, valid: nat, chanced: nat)
      requires Sifted(names, b, o, before, had) && o + 1 < g.pages && NOWHERE !in st.hash.Keys
      ensures Sifted(list, b, o + 1, valid, chanced)
      ensures list == if names[o] in st.hash && st.hash[names[o]] == Pg(b, o) then names else names[o := NOWHERE]
    {
      list, valid, chanced := names, before, had;
      if !(list[o] in st.hash && st.hash[list[o]] == Pg(b, o)) {
        list := list[o := NOWHERE];
      } else {
        valid := valid + 1;
        if Pg(b, o) in st.sc {
          chanced := chanced + 1;
        }
      }
      CountsStay(names, list, st.sc, b, o);
    }

    /** The first loop of garbage_collection: of the names of victim block b, those of valid pages are kept, and
        counted. */
    method CountValid(b: nat) returns (valid: nat, chanced: nat)
      requires Valid() && st.rwFree == 0 && 0 < b < g.used
      modifies this`st
      ensures st == old(st).(rwList := SiftedNames(g, old(st), b)) && Filtered(g, st, st.rwList, b, 0)
      ensures valid == ValidBefore(st.rwList, g.pages - 1) == |ValidIn(st, b)|
      ensures chanced == ChancedBefore(st.rwList, st.sc, b, g.pages - 1) == |ColdIn(st, b)|
    {
      var list := ReadNames(g, CellAt(st.flash, LogVbn(g, st, b), g.pages - 1));
      NowhereIsNoPage(g, st);
      assert NOWHERE !in st.hash.Keys;
      forall d | d in st.hash && st.hash[d].b == b ensures st.hash[d].o < g.pages - 1 && Listed(list, st.hash[d].o, d) {
        NamesLead(g, st, b, d);
      }
      ghost var names := list;
      SiftNext(st, b, names, 0);
      valid, chanced := 0, 0;
      for o := 0 to g.pages - 1
        invariant st == old(st) && Sifted(list, b, o, valid, chanced) && list == Sift(st, b, names, o)
      {
        SiftNext(st, b, names, o);
        list, valid, chanced := SiftOne(b, list, o, valid, chanced);
      }
      KeepNames(b, list, valid, chanced);
    }

    method KeepNames(b: nat, list: seq<Pg>, ghost valid: nat, ghost chanced: nat)
      requires Inv(g, st) && 0 < b < g.used && Sifted(list, b, g.pages - 1, valid, chanced)
      modifies this`st
      ensures st == old(st).(rwList := list) && Filtered(g, st, list, b, 0)
      ensures valid == |ValidIn(st, b)| && chanced == |ColdIn(st, b)|
    {
      forall d | d in st.hash && st.hash[d].b == b ensures FilteredAt(list, d, st.hash[d]) {
      }
      CountsAre(g, st, list, b);
      st := st.(rwList := list);
      forall d | d in st.hash && st.hash[d].b == b ensures FilteredAt(list, d, st.hash[d]) {
      }
    }

    /** All pages of the victim are valid, and none has had a second chance: they all get one, and the next block is the
        victim of the next round. */
    method ChanceForAll(b: nat)
      requires Valid() && st.rwFree == 0 && 0 < b < g.used && b in Unmarked(g, st.sc)
      modifies this`st
      ensures Valid() && SameContent(g, old(st), st) && Blocks(g, st) == Blocks(g, old(st))
      ensures st == PassedOver(g, old(st), b) && |Unmarked(g, st.sc)| < |Unmarked(g, old(st).sc)|
    {
      var all := PagesOf(g, b);
      var next := NextLog(b);
      if next == 0 {
        next := 1;
      }
      MarkingIsProgress(g, st.sc, st.sc + all, b);
      MarkKeepsInv(g, st, st.(sc := st.sc + all, cur := Pg(next - 1, g.pages - 1)));
      st := st.(sc := st.sc + all, cur := Pg(next - 1, g.pages - 1));
    }

    /** All pages of the victim are valid and have no second-chance bit. */
    method PassOver(b: nat)
      requires Valid() && st.rwFree == 0 && 0 < b < g.used
      requires ValidBefore(st.rwList, g.pages - 1) == g.pages - 1
      requires ChancedBefore(st.rwList, st.sc, b, g.pages - 1) == 0
      modifies this`st
      ensures Valid() && SameContent(g, old(st), st) && Blocks(g, st) == Blocks(g, old(st))
      ensures st == PassedOver(g, old(st), b) && b in Unmarked(g, old(st).sc)
    {
      NoChance(st.rwList, st.sc, b, g.pages - 1);
      assert NotMarked(g, st.sc, b) by {
        assert Pg(b, 0) !in st.sc;
      }
      ChanceForAll(b);
    }

    /** A valid page moves on to page k of the new block, with a second-chance bit. */
    method MoveOn(b: nat, t: nat, o: nat, k: nat)
      requires o < |st.rwList| && k < |st.rwList|
      modifies this`st
      ensures Mid(st, k + 1) == Chanced(g, Mid(old(st), k), b, t, o)
    {
      var d := st.rwList[o];
      var data := Read(g, CellAt(st.flash, LogVbn(g, st, b), o));
      st := st.(hash := st.hash[d := Pg(b, k)], rwList := st.rwList[k := d], sc := st.sc + {Pg(b, k)},
          flash := Program(st.flash, t, k, Page(data)));
    }

    /** The case of few valid pages: all of them are compacted into the new block. */
    method Compact(b: nat, t: nat) returns (k: nat)
      requires 0 < g.pages <= |st.rwList|
      modifies this`st
      ensures Mid(st, k) == Compacted(g, old(st), b, t, g.pages - 1)
    {
      k := 0;
      for o := 0 to g.pages - 1
        invariant Mid(st, k) == Compacted(g, old(st), b, t, o)
      {
        if st.rwList[o] != NOWHERE {
          MoveOn(b, t, o, k);
          k := k + 1;
        }
      }
    }

    /** The names of an isolation block that is full are written, before the next block follows. */
    method CloseIsol(ghost st0: State, b: nat, t: nat, ghost o: nat, ghost k: nat)
      requires Inv(g, st0) && GcMid(g, st0, st, b, t, o, k) && IsolOpen(g, st) && st.isolCur != NOWHERE
      requires st.isolCur.o + 1 == g.pages - 1
      modifies this`st
      ensures GcMid(g, st0, st, b, t, o, k) && st == NamesWritten(g, old(st))
      ensures CellAt(st.flash, LogVbn(g, st, g.logs + st.isolCur.b), Last(g)) == Names(st.isolList)
    {
      var v := LogVbn(g, st, g.logs + st.isolCur.b);
      CloseKeepsMid(g, st0, st, b, t, o, k);
      MidIsWritten(g, st0, st, b, t, o, k);
      assert InIsolArea(g, g.logs + st.isolCur.b);
      ProgramCells(st.flash, v, g.pages - 1, Names(st.isolList));
      st := st.(flash := Program(st.flash, v, g.pages - 1, Names(st.isolList)), isolFree := st.isolFree - 1);
    }

    /** The next page of the isolation area to write. This stops (ok is false) where that is in the victim block, which
        the code asserts it is not, and where it is in use: then the area overflows, which no assertion notices. */
    method NextIsolPage(ghost st0: State, b: nat, t: nat, ghost o: nat, ghost k: nat) returns (ok: bool, e: Pg)
      requires Inv(g, st0) && GcMid(g, st0, st, b, t, o, k) && IsolOpen(g, st)
      modifies this`st
      ensures ok <==> IsolRoom(g, old(st), 1)
      ensures GcMid(g, st0, st, b, t, o, k) && st == NamesWritten(g, old(st)) && e == NextWrite(g, old(st))
      ensures ok ==> CanAppend(g, st, e.b, e.o)
    {
      MidIsWritten(g, st0, st, b, t, o, k);
      RoomForOne(g, st);
      e := NextIsol(g, st.isolCur);
      if e.o == g.pages - 1 {
        CloseIsol(st0, b, t, o, k);
        e := NextIsol(g, e);
      }
      ok := !(st.vt != NOWHERE && e.b == st.vt.b) && CellAt(st.flash, LogVbn(g, st, g.logs + e.b), e.o) == Erased;
      if ok {
        NextCanAppend(g, st, e);
      }
    }

    /** A cold page moves to the isolation area, if there is room: m pages are still to go there. */
    method Isolate(ghost st0: State, b: nat, t: nat, o: nat, ghost k: nat, ghost m: nat) returns (ok: bool)
      requires Inv(g, st0) && GcMid(g, st0, st, b, t, o, k) && o + 1 < g.pages && st.rwList[o] != NOWHERE
      requires IsolOpen(g, st) && 0 < m < g.pages
      modifies this`st
      ensures (ok <==> IsolRoom(g, old(st), 1)) && (!ok ==> !IsolRoom(g, old(st), m))
      ensures ok ==> GcMid(g, st0, st, b, t, o + 1, k) && st == Isolated(g, old(st), b, o)
      ensures ok ==> IsolOpen(g, st) && (IsolRoom(g, st, m - 1) <==> IsolRoom(g, old(st), m))
    {
      ghost var was := st;
      MidIsWritten(g, st0, st, b, t, o, k);
      var e;
      ok, e := NextIsolPage(st0, b, t, o, k);
      if ok {
        IsolateAt(st0, was, b, t, o, k, m, e);
      }
    }

    method IsolateAt(ghost st0: State, ghost was: State, b: nat, t: nat, o: nat, ghost k: nat, ghost m: nat, e: Pg)
      requires Inv(g, st0) && GcMid(g, st0, st, b, t, o, k) && o + 1 < g.pages && st.rwList[o] != NOWHERE
      requires IsolOk(g, was) && IsolOpen(g, was) && IsolDistinct(g, was)
      requires |was.isolList| == g.pages && 0 < m < g.pages
      requires IsolRoom(g, was, 1) && st == NamesWritten(g, was) && e == NextWrite(g, was) && CanAppend(g, st, e.b, e.o)
      modifies this`st
      ensures GcMid(g, st0, st, b, t, o + 1, k) && st == Isolated(g, was, b, o)
      ensures IsolOpen(g, st) && (IsolRoom(g, st, m - 1) <==> IsolRoom(g, was, m))
    {
      var d, data := st.rwList[o], Read(g, CellAt(st.flash, LogVbn(g, st, b), o));
      NamesCells(g, was);
      RoomAfterAppend(g, was, d, data, m);
      IsolateStep(g, st0, st, b, t, o, k, e.b, e.o);
      AppendIsol(d, e, data);
    }

    method AppendIsol(d: Pg, e: Pg, data: Data)
      requires e.o < |st.isolList|
      modifies this`st
      ensures st == Appended(g, old(st), d, e.b, e.o, data)
    {
      st := st.(hash := st.hash[d := Pg(g.logs + e.b, e.o)], isolCur := e, isolList := st.isolList[e.o := d],
                flash := Program(st.flash, LogVbn(g, st, g.logs + e.b), e.o, Page(data)));
    }

    method ClearBit(ghost st0: State, b: nat, ghost t: nat, o: nat, ghost k: nat)
      requires Inv(g, st0) && GcMid(g, st0, st, b, t, o, k)
      modifies this`st
      ensures GcMid(g, st0, st, b, t, o, k) && st == old(st).(sc := old(st).sc - {Pg(b, o)}) && SameRoom(g, old(st), st)
    {
      BitsAreFree(g, st0, st, b, t, o, k, st.sc - {Pg(b, o)});
      MidIsWritten(g, st0, st, b, t, o, k);
      RoomStays(g, st, st.(sc := st.sc - {Pg(b, o)}));
      st := st.(sc := st.sc - {Pg(b, o)});
    }

    /** A cold page, in a migration that began in state st1. */
    method MigrateCold(ghost st0: State, ghost st1: State, ghost was: State, b: nat, t: nat, o: nat, ghost k: nat)
      returns (ok: bool)
      requires Inv(g, st0) && GcMid(g, st0, st, b, t, o, k) && o + 1 < g.pages && IsolOpen(g, st)
      requires Cleared(g, st1, was, st, b, o, k) && was.rwList[o] != NOWHERE && Pg(b, o) in was.sc
      modifies this`st
      ensures !ok ==> !IsolRoom(g, st1, Cold(g, st1, b))
      ensures ok ==> GcMid(g, st0, st, b, t, o + 1, k) && IsolOpen(g, st) && Migrating(g, st1, st, b, o + 1, k)
      ensures ok ==> st == Isolated(g, old(st), b, o)
    {
      ghost var m, mid := Cold(g, st1, b) - ChancedBefore(st1.rwList, st1.sc, b, o), st;
      ColdAhead(g, st1, was, b, o, k);
      ok := Isolate(st0, b, t, o, k, m);
      if ok {
        MigratedCold(g, st1, was, mid, st, b, o, k);
      }
    }

    /** A page without a second-chance bit. */
    method MigrateWarm(ghost st0: State, ghost st1: State, ghost was: State, b: nat, t: nat, o: nat, k: nat)
      requires Inv(g, st0) && GcMid(g, st0, st, b, t, o, k) && o + 1 < g.pages && IsolOpen(g, st)
      requires Cleared(g, st1, was, st, b, o, k) && was.rwList[o] != NOWHERE && Pg(b, o) !in was.sc
      modifies this`st
      ensures GcMid(g, st0, st, b, t, o + 1, k + 1) && IsolOpen(g, st) && Migrating(g, st1, st, b, o + 1, k + 1)
      ensures Mid(st, k + 1) == Chanced(g, Mid(old(st), k), b, t, o)
    {
      ChanceKeeps(g, st0, st, b, t, o, k);
      MoveOn(b, t, o, k);
      MigratedWarm(g, st1, was, st, b, o, k);
    }

    /** One page, in the case of many valid pages: without a second-chance bit it gets one and moves on; with one it is
        cold. */
    method MigrateOne(ghost st0: State, ghost st1: State, b: nat, t: nat, o: nat, before: nat)
      returns (ok: bool, k: nat)
      requires Inv(g, st0) && GcMid(g, st0, st, b, t, o, before) && o + 1 < g.pages && IsolOpen(g, st)
      requires Migrating(g, st1, st, b, o, before)
      modifies this`st
      ensures !ok ==> !IsolRoom(g, st1, Cold(g, st1, b))
      ensures ok ==> GcMid(g, st0, st, b, t, o + 1, k) && IsolOpen(g, st) && Migrating(g, st1, st, b, o + 1, k)
      ensures ok ==> Mid(st, k) == MigrateStep(g, Mid(old(st), before), b, t, o)
    {
      ok, k := true, before;
      ghost var was := st;
      var cold := Pg(b, o) in st.sc;
      ClearBit(st0, b, t, o, k);
      if st.rwList[o] == NOWHERE {
        SkipPage(g, st0, st, b, t, o, k);
        MigratedWarm(g, st1, was, st, b, o, k);
      } else if cold {
        ok := MigrateCold(st0, st1, was, b, t, o, k);
      } else {
        MigrateWarm(st0, st1, was, b, t, o, k);
        k := k + 1;
      }
    }

    /** The case of many valid pages. It succeeds exactly if there is room for all that are cold. */
    method Migrate(ghost st0: State, b: nat, t: nat) returns (ok: bool, k: nat)
      requires Inv(g, st0) && GcMid(g, st0, st, b, t, 0, 0) && IsolOpen(g, st)
      modifies this`st
      ensures ok <==> IsolRoom(g, old(st), Cold(g, old(st), b))
      ensures ok ==> GcMid(g, st0, st, b, t, g.pages - 1, k) && IsolOpen(g, st)
      ensures ok ==> k + Cold(g, old(st), b) == ValidBefore(old(st).rwList, g.pages - 1)
      ensures ok ==> Mid(st, k) == Migrated(g, old(st), b, t, g.pages - 1)
    {
      ok, k := true, 0;
      ghost var st1 := st;
      FewValid(st.rwList, st.sc, b, g.pages - 1);
      for o := 0 to g.pages - 1
        invariant ok && GcMid(g, st0, st, b, t, o, k) && IsolOpen(g, st) && Migrating(g, st1, st, b, o, k)
        invariant Mid(st, k) == Migrated(g, st1, b, t, o)
      {
        ok, k := MigrateOne(st0, st1, b, t, o, k);
        if !ok {
          return;
        }
      }
    }

    /** The end of garbage_collection. */
    method FinishGc(ghost st0: State, b: nat, t: nat, k: nat)
      requires Inv(g, st0) && GcMid(g, st0, st, b, t, g.pages - 1, k) && k < g.pages - 1 && st0.rwFree == 0
      requires IsolOpen(g, st) && Linked()
      modifies this`st, ring, ring.slots
      ensures Valid() && SameContent(g, st0, st) && Blocks(g, st) == Blocks(g, st0) && st.rwFree == 1
      ensures st.cur.o + 2 != g.pages && st == AfterGc(g, st0, old(st), b, k)
      ensures st.swLbn == st0.swLbn && st.swNext == st0.swNext && st.vt == st0.vt
    {
      GcKeeps(g, st0, st, b, t, k);
      var was := st.log[b];
      st := st.(log := st.log[b := t]);
      EraseAndFree(was);
      st := st.(rwFree := st.rwFree + 1, cur := if k > 0 then Pg(b, k - 1) else Pg(b - 1, g.pages - 1));
    }

    /** The case of few valid pages: the second-chance bits of the block are cleared, and its pages move on. */
    method CollectFew(ghost st0: State, b: nat, t: nat) returns (k: nat)
      requires Inv(g, st0) && GcMid(g, st0, st, b, t, 0, 0)
      modifies this`st
      ensures GcMid(g, st0, st, b, t, g.pages - 1, k) && k == ValidBefore(old(st).rwList, g.pages - 1)
      ensures SameRoom(g, old(st), st)
      ensures Mid(st, k) == Compacted(g, old(st).(sc := old(st).sc - PagesOf(g, b)), b, t, g.pages - 1)
    {
      FewAreCompacted(g, st0, st, b, t);
      st := st.(sc := st.sc - PagesOf(g, b));
      k := Compact(b, t);
    }

    /** The case of many valid pages: those that have had their second chance migrate. */
    method CollectMany(ghost st0: State, b: nat, ghost valid: nat, ghost chanced: nat, t: nat)
      returns (ok: bool, k: nat)
      requires Inv(g, st0) && GcMid(g, st0, st, b, t, 0, 0) && IsolOpen(g, st)
      requires valid == ValidBefore(st.rwList, g.pages - 1)
      requires chanced == ChancedBefore(st.rwList, st.sc, b, g.pages - 1)
      requires valid < g.pages - 1 || chanced > 0
      modifies this`st
      ensures ok <==> IsolRoom(g, old(st), chanced)
      ensures ok ==> GcMid(g, st0, st, b, t, g.pages - 1, k) && k < g.pages - 1 && IsolOpen(g, st)
      ensures ok ==> Mid(st, k) == Migrated(g, old(st), b, t, g.pages - 1)
    {
      FewValid(st.rwList, st.sc, b, g.pages - 1);
      ok, k := Migrate(st0, b, t);
    }

    /** The three cases of garbage_collection that free the block: no valid pages, few, or many. */
    method Collect(ghost st0: State, b: nat, valid: nat, ghost chanced: nat, t: nat) returns (ok: bool, k: nat)
      requires Inv(g, st0) && GcMid(g, st0, st, b, t, 0, 0) && st.sc == st0.sc && IsolOpen(g, st)
      requires valid == ValidBefore(st.rwList, g.pages - 1)
      requires chanced == ChancedBefore(st.rwList, st.sc, b, g.pages - 1)
      requires valid < g.pages - 1 || chanced > 0
      modifies this`st
      ensures ok <==> IsolRoom(g, old(st), if valid < g.pages / 2 then 0 else chanced)
      ensures ok ==> GcMid(g, st0, st, b, t, g.pages - 1, k) && k < g.pages - 1 && IsolOpen(g, st)
      ensures ok ==> Mid(st, k) == Emptied(g, old(st), b, t)
    {
      ok, k := true, 0;
      EmptiedIs(g, st, b, t, valid);
      if valid == 0 {
        NothingToMove(g, st0, st, b, t, g.pages - 1);
      } else if valid < g.pages / 2 {
        k := CollectFew(st0, b, t);
      } else {
        ok, k := CollectMany(st0, b, valid, chanced, t);
      }
    }

    /** garbage_collection: no content changes. Either all pages of the victim get a second chance, or it is freed, if
        there is room in the isolation area for the pages that migrate. */
    method GarbageCollection() returns (ok: bool)
      requires Valid() && st.rwFree == 0
      modifies this`st, ring, ring.slots
      ensures var b := VictimOf(g, old(st).cur); ok <==>
        IsPassedOver(g, old(st), b) || IsolRoom(g, old(st), Migrants(g, old(st), b))
      ensures ok ==> Valid() && SameContent(g, old(st), st) && Blocks(g, st) == Blocks(g, old(st))
      ensures ok ==> st.swLbn == old(st).swLbn && st.swNext == old(st).swNext && st.vt == old(st).vt
      ensures ok ==> st == Collected(g, old(st))
      ensures var b := VictimOf(g, old(st).cur); ok ==>
        if IsPassedOver(g, old(st), b)
            then st == PassedOver(g, old(st), b).(rwList := st.rwList) && b in Unmarked(g, old(st).sc)
            else st.rwFree == 1 && st.cur.o + 2 != g.pages
    {
      var b, valid, chanced := SiftVictim();
      if valid == g.pages - 1 && chanced == 0 {
        PassOver(b);
        return true;
      }
      FewValid(st.rwList, st.sc, b, g.pages - 1);
      ok := CollectVictim(b, valid, chanced);
    }

    /** The victim of garbage_collection, with the names of its valid pages. */
    method SiftVictim() returns (b: nat, valid: nat, chanced: nat)
      requires Valid() && st.rwFree == 0
      modifies this`st
      ensures Valid() && SameContent(g, old(st), st) && Blocks(g, st) == Blocks(g, old(st))
      ensures b == VictimOf(g, old(st).cur) && 0 < b < g.used
      ensures st == old(st).(rwList := SiftedNames(g, old(st), b)) && Filtered(g, st, st.rwList, b, 0)
      ensures valid == ValidBefore(st.rwList, g.pages - 1) && chanced == ChancedBefore(st.rwList, st.sc, b, g.pages - 1)
      ensures valid == g.pages - 1 && chanced == 0 <==> IsPassedOver(g, old(st), b)
      ensures IsolRoom(g, st, if valid < g.pages / 2 then 0 else chanced) <==>
        IsolRoom(g, old(st), Migrants(g, old(st), b))
    {
      ghost var st0 := st;
      b := VictimLog();
      valid, chanced := CountValid(b);
      MarkKeepsInv(g, st0, st);
    }

    /** The victim is not passed over. */
    method CollectVictim(b: nat, valid: nat, ghost chanced: nat) returns (ok: bool)
      requires Valid() && st.rwFree == 0 && 0 < b < g.used && Filtered(g, st, st.rwList, b, 0)
      requires valid == ValidBefore(st.rwList, g.pages - 1)
      requires chanced == ChancedBefore(st.rwList, st.sc, b, g.pages - 1)
      requires valid < g.pages - 1 || chanced > 0
      modifies this`st, ring, ring.slots
      ensures ok <==> IsolRoom(g, old(st), if valid < g.pages / 2 then 0 else chanced)
      ensures ok ==> Valid() && SameContent(g, old(st), st) && Blocks(g, st) == Blocks(g, old(st))
      ensures ok ==> st.rwFree == 1 && st.cur.o + 2 != g.pages
      ensures ok ==> st.swLbn == old(st).swLbn && st.swNext == old(st).swNext && st.vt == old(st).vt
      ensures ok ==> st == Recycled(g, old(st), b)
    {
      ghost var st1 := st;
      FewValid(st.rwList, st.sc, b, g.pages - 1);
      IsolsDiffer(g, st, st);
      var t := GetFreeVbn();
      GcStarts(g, st1, st, b);
      RoomStays(g, st1, st);
      var k;
      ok, k := Collect(st1, b, valid, chanced, t);
      if ok {
        FinishGc(st1, b, t, k);
      }
    }

    // ---- writing -----------------------------------------------------------------------------------------------

    /** What preparing a write does not change. */
    ghost predicate Kept(st0: State)
      reads this`st, ring, ring.slots
    {
      && Valid() && SameContent(g, st0, st) && Blocks(g, st) == Blocks(g, st0)
      && st.swLbn == st0.swLbn && st.swNext == st0.swNext && st.vt == st0.vt
    }

    /** The loop that collects until the random log area is not full. It ends: each round that frees no block marks one
        more block with second-chance bits. */
    method CollectUntilFree() returns (ok: bool)
      requires Valid() && st.rwFree == 0
      modifies this`st, ring, ring.slots
      ensures ok <==> CanFree(g, old(st))
      ensures ok ==> Kept(old(st)) && st.rwFree == 1 && st.cur.o + 2 != g.pages && st == Freed(g, old(st))
    {
      ok := true;
      while st.rwFree == 0
        invariant ok && Kept(old(st))
        invariant (if st.rwFree == 0 then Freed(g, st) else st) == Freed(g, old(st))
        invariant (if st.rwFree == 0 then CanFree(g, st) <==> CanFree(g, old(st)) else CanFree(g, old(st)))
        invariant st.rwFree > 0 ==> st.rwFree == 1 && st.cur.o + 2 != g.pages
        decreases if st.rwFree == 0 then |Unmarked(g, st.sc)| + 1 else 0
      {
        ghost var was := st;
        ok := GarbageCollection();
        if !ok {
          return;
        }
        if st.rwFree == 0 {
          PassingOver(g, was, st);
        }
      }
    }

    /** The end of a random log block in assign_cur_write_rwlog_lpn: its names are written. Then either another block is
        still unused, or blocks are collected until there is room. */
    method CloseBlock() returns (ok: bool, moved: bool)
      requires Valid() && st.rwFree > 0 && st.cur.o + 2 == g.pages
      modifies this`st, ring, ring.slots
      ensures ok <==> old(st).rwFree > 1 || CanFree(g, old(st))
      ensures ok ==> Kept(old(st)) && st.rwFree > 0 && (moved <==> old(st).rwFree > 1)
      ensures ok && !moved ==> st.cur.o + 2 != g.pages && st == Freed(g, Closed(g, old(st)).(rwFree := 0))
      ensures ok && moved ==> st == Assigned(g, old(st))
      ensures ok && moved ==>
        st.cur.o == 0 < st.cur.b < g.used && CellAt(st.flash, LogVbn(g, st, st.cur.b), 0) == Erased
    {
      var c := NextLog(st.cur.b);
      CloseCells(g, st);
      var flash := Program(st.flash, LogVbn(g, st, st.cur.b), g.pages - 1, Names(st.rwList));
      if st.rwFree == 1 {
        CloseKeeps(g, st, st.(flash := flash, rwFree := 0));
        CloseKeepsTurns(g, st, st.(flash := flash, rwFree := 0));
        st := st.(flash := flash, rwFree := 0);
        ok := CollectUntilFree();
        moved := false;
      } else {
        CloseKeeps(g, st, st.(flash := flash, rwFree := st.rwFree - 1, cur := Pg(c, 0)));
        st := st.(flash := flash, rwFree := st.rwFree - 1, cur := Pg(if c == 0 then 1 else c, 0));
        ok, moved := true, true;
      }
    }

    /** assign_cur_write_rwlog_lpn: the next page to write in the random log area. */
    method AssignRwPage() returns (ok: bool, e: Pg, collected: bool)
      requires Valid() && st.rwFree > 0
      modifies this`st, ring, ring.slots
      ensures ok <==> CanAssign(g, old(st))
      ensures ok ==> Kept(old(st)) && forall d | IsPage(g, d) :: CanWriteRw(g, st, d, e)
      ensures ok ==> st == Assigned(g, old(st)) && e == st.cur
      ensures ok ==> (collected <==> old(st).cur.o + 2 == g.pages && old(st).rwFree == 1)
    {
      collected := false;
      if st.cur.o + 2 == g.pages {
        var moved;
        ok, moved := CloseBlock();
        if !ok || moved {
          return ok, st.cur, false;
        }
        collected := true;
      }
      Advance();
      return true, st.cur, collected;
    }

    /** inc_cur_write_rwlog_lpn: the next page, where something may be written. */
    method Advance()
      requires Valid() && st.rwFree > 0 && st.cur.o + 2 != g.pages
      modifies this`st
      ensures Kept(old(st)) && st == Advanced(g, old(st)) && forall d | IsPage(g, d) :: CanWriteRw(g, st, d, st.cur)
    {
      AdvanceKeeps(g, st);
      st := st.(cur := Pg(OpenBlock(g, st.cur), OpenPage(g, st.cur)));
    }

    /** The writes of one page: the index, the list of the block, and the program of the page. */
    method WriteAt(d: Pg, e: Pg, data: Data)
      requires Valid() && CanWrite(g, st, d, e)
      modifies this`st
      ensures Valid() && OnePage(g, old(st), st, d, data) && Blocks(g, st) == Blocks(g, old(st))
      ensures st == Written(g, old(st), d, e, data)
    {
      WriteKeeps(g, st, d, e, data);
      PutAnew(st.hash, d, e);
      ghost var after := Written(g, st, d, e, data);
      Invalidate(d);
      st := st.(flash := Program(st.flash, LogVbn(g, st, e.b), e.o, Page(data)));
      Register(d, e);
      assert st == after;
    }

    /** The invalidation of the old copy: in the hash table, or with the VC bit of the data block. */
    method Invalidate(d: Pg)
      requires st.vc == st.hash.Keys
      modifies this`st
      ensures st == old(st).(hash := old(st).hash - {d}, vc := old(st).vc + {d})
    {
      if d in st.vc {
        st := st.(hash := st.hash - {d});
        assert old(st).vc + {d} == st.vc;
      } else {
        st := st.(vc := st.vc + {d});
        assert old(st).hash - {d} == st.hash;
      }
    }

    /** set_data_lpn_in_log_blk, with the position of the sequential log block. */
    method Register(d: Pg, e: Pg)
      requires e.o < |st.rwList|
      modifies this`st
      ensures st == old(st).(hash := old(st).hash + map[d := e],
                             rwList := if e.b == 0 then old(st).rwList else old(st).rwList[e.o := d],
                             swLbn := if e.b == 0 then d.b else old(st).swLbn,
                             swNext := if e.b == 0 then e.o + 1 else old(st).swNext)
    {
      if e.b == 0 {
        st := st.(swLbn := d.b, swNext := e.o + 1);
      } else {
        st := st.(rwList := st.rwList[e.o := d]);
      }
      st := st.(hash := st.hash + map[d := e]);
    }

    /** The case SW_DETECT of prepare_to_new_write: a new sequential stream takes over the sequential log block. The
        pages before d are copied to it. */
    method StartStream(d: Pg)
      requires Valid() && IsPage(g, d) && d.b != st.swLbn && st.swNext < g.pages
      modifies this`st, ring, ring.slots
      ensures Valid() && SameContent(g, old(st), st) && Blocks(g, st) == Blocks(g, old(st))
      ensures st.rwFree == old(st).rwFree && CanAppendSw(g, st, d, Pg(0, d.o))
      ensures st == Streamed(g, if old(st).swLbn < g.datas then SwMerged(g, old(st)) else old(st), d.b, d.o)
    {
      EmptySw();
      StreamKeeps(g, st, d.b, d.o);
      StreamPages(d);
    }

    method EmptySw()
      requires Valid() && st.swNext < g.pages
      modifies this`st, ring, ring.slots
      ensures Valid() && SameContent(g, old(st), st) && Blocks(g, st) == Blocks(g, old(st))
      ensures st.rwFree == old(st).rwFree && st.swLbn == NONE
      ensures st == if old(st).swLbn < g.datas then SwMerged(g, old(st)) else old(st)
    {
      if st.swLbn != NONE {
        PartialMerge();
      }
    }

    method StreamPages(d: Pg)
      requires Valid() && IsPage(g, d) && st.swLbn == NONE
      modifies this`st
      ensures Linked() && st == Streamed(g, old(st), d.b, d.o)
    {
      for o := 0 to d.o
        invariant st == Streamed(g, old(st), d.b, o) && Linked()
      {
        StreamOne(old(st), d.b, o);
      }
    }

    method StreamOne(ghost st0: State, lbn: nat, o: nat)
      requires Inv(g, st0) && st0.swLbn == NONE && lbn < g.datas && o < g.pages
      requires st == Streamed(g, st0, lbn, o) && Linked()
      modifies this`st
      ensures st == Streamed(g, st0, lbn, o + 1) && Linked()
    {
      StreamKeeps(g, st0, lbn, o);
      var src := GetVpn(Pg(lbn, o));
      WriteAt(Pg(lbn, o), Pg(0, o), Read(g, CellAt(st.flash, src.b, src.o)));
    }

    function Now(): Moment
      reads this
    {
      Moment(st, corrPage, corrCount, pace)
    }

    /** is_ok_write_to_sw_logblk: whether page d is the next of the stream in the sequential log block, or a stream of
        its own has been detected. */
    method ChooseLog(d: Pg) returns (kind: LogKind)
      requires IsPage(g, d)
      modifies this`corrPage, this`corrCount
      ensures kind == KindOf(g, old(Now()), d) && Now() == WithStream(g, old(Now()), d)
    {
      if st.swLbn == d.b {
        if st.swNext == d.o {
          corrPage := d;
          return Append;
        }
        return Random;
      }
      kind := Random;
      if d == NextPage(g, corrPage) {
        corrPage := d;
        if corrCount > THRESHOLD {
          return Detect;
        }
        corrCount := corrCount + 1;
      } else {
        corrPage, corrCount := d, 1;
      }
    }

    /** prepare_to_new_write: the log page for the next write of page d. */
    method Prepare(d: Pg) returns (ok: bool, e: Pg, collected: bool)
      requires Ready() && IsPage(g, d)
      modifies this`st, this`corrPage, this`corrCount, ring, ring.slots
      ensures ok <==> KindOf(g, old(Now()), d) == Random ==> CanAssign(g, old(st))
      ensures ok ==> Valid() && SameContent(g, old(st), st) && Blocks(g, st) == Blocks(g, old(st)) && st.rwFree > 0
      ensures ok ==> CanWrite(g, st, d, e) && st.swNext < g.pages
      ensures ok ==> Now() == WithStream(g, old(Now()), d).(st := Prepared(g, old(Now()), d))
      ensures ok ==> e == Target(g, old(Now()), d) && (e.b == 0 <==> KindOf(g, old(Now()), d) != Random)
      ensures ok && e.b != 0 ==> (collected <==> IsBusy(g, old(Now()), d))
      ensures ok && e.b == 0 ==> !collected
    {
      var kind := ChooseLog(d);
      match kind {
        case Append =>
          return true, Pg(0, d.o), false;
        case Detect =>
          StartStream(d);
          return true, Pg(0, d.o), false;
        case Random =>
          ok, e, collected := AssignRwPage();
      }
    }

    /** The first part of write_to_log_block: the page is written, and a sequential log block that is full is merged. It
        stops (ok is false) if the random log area cannot be collected. */
    method Store(d: Pg, offset: nat, sectors: seq<Sector>) returns (ok: bool, random: bool, busy: bool)
      requires Ready() && CommandOk(g, Put(d, offset, sectors))
      modifies this`st, this`corrPage, this`corrCount, ring, ring.slots
      ensures ok <==> KindOf(g, old(Now()), d) == Random ==> CanAssign(g, old(st))
      ensures ok ==> Ready() && Blocks(g, st) == Blocks(g, old(st))
      ensures ok ==> OnePage(g, old(st), st, d, Splice(g, Resolve(g, old(st), d), offset, sectors))
      ensures ok ==> Now() == WithStream(g, old(Now()), d).(st :=
        Stored(g, old(Now()), d, Splice(g, Resolve(g, old(st), d), offset, sectors)))
      ensures ok ==> (random <==> KindOf(g, old(Now()), d) == Random) && (busy <==> IsBusy(g, old(Now()), d))
    {
      var e;
      ok, e, busy := Prepare(d);
      random := e.b != 0;
      if !ok {
        return;
      }
      ghost var prepared := st;
      var data := Merged(d, offset, sectors);
      assert Resolve(g, prepared, d) == Resolve(g, old(st), d);
      WriteAt(d, e, data);
      WrittenOnly(g, old(st), prepared, st, d, data);
      ghost var written := st;
      if st.swNext == g.pages {
        SwitchMerge();
        SameAfter(g, old(st), written, st, d, data);
        busy := true;
      }
    }

    /** The progressive merge of write_to_log_block. It stops (ok is false) where an assertion of the code does not
        hold. */
    method MergeIfDue(random: bool, busy: bool) returns (ok: bool)
      requires Ready()
      modifies this`st, this`pace, ring, ring.slots
      ensures ok <==> (!busy && IsDue(g, old(pace), old(st).isolFree, random) ==> CanMerge(g, old(st)))
      ensures ok ==> Ready() && SameContent(g, old(st), st) && Blocks(g, st) == Blocks(g, old(st))
      ensures ok ==>
        st == if !busy && IsDue(g, old(pace), old(st).isolFree, random) then FullyMerged(g, old(st)) else old(st)
      ensures ok ==> pace == if busy then old(pace) else Counted(g, old(pace), old(st).isolFree, random)
    {
      ok := true;
      if busy {
        return;
      }
      var free := st.isolFree;
      if free <= RESERVED {
        ok := MergeNow();
        pace := pace.(raised := true);
      } else if g.isols - 1 > free && random {
        pace := pace.(trigger := pace.trigger + 1);
        if pace.trigger >= 2 * pace.interval {
          ok := MergeNow();
          pace := pace.(trigger := 0);
        }
      }
    }

    method MergeNow() returns (ok: bool)
      requires Ready() && st.isolFree < g.isols
      modifies this`st, ring, ring.slots
      ensures ok <==> CanMerge(g, old(st))
      ensures ok ==> Ready() && SameContent(g, old(st), st) && Blocks(g, st) == Blocks(g, old(st))
      ensures ok ==> st == FullyMerged(g, old(st))
    {
      MergeLeaves(g, st);
      ok := FullMerge();
    }

    /** The adjustment of the merge interval, at the end of write_to_log_block. */
    method Tune()
      modifies this`pace
      ensures pace == Tuned(g, old(pace), st.isolFree)
    {
      if pace.writes < g.logs * g.pages / 8 || st.isolFree >= g.isols {
        return;
      }
      if pace.base < 2 {
        pace := pace.(base := g.pages / 4);
      }
      if st.isolFree > g.isols - 2 {
        pace := pace.(interval := pace.interval + 1);
      } else if pace.raised {
        if pace.base > 1 {
          pace := pace.(base := pace.base - 1);
        }
        pace := pace.(interval := pace.base, raised := false);
      }
      pace := pace.(writes := 0);
    }

    /** write_to_log_block: exactly the sectors written change. It stops (ok is false) if the random log area cannot be
        collected, or where an assertion of the code does not hold in a full merge. */
    method Write(d: Pg, offset: nat, sectors: seq<Sector>) returns (ok: bool)
      requires Ready() && CommandOk(g, Put(d, offset, sectors))
      modifies this, ring, ring.slots
      ensures ok <==> Accepts(g, old(Now()), Put(d, offset, sectors))
      ensures ok ==> Ready() && Blocks(g, st) == Blocks(g, old(st))
      ensures ok ==> Now() == Next(g, old(Now()), Put(d, offset, sectors))
      ensures ok ==> OnePage(g, old(st), st, d, Splice(g, Resolve(g, old(st), d), offset, sectors))
    {
      ghost var now, c := Now(), Put(d, offset, sectors);
      var random, busy;
      ok, random, busy := Store(d, offset, sectors);
      if ok {
        ghost var stored := st;
        ok := FinishWrite(now, c, random, busy);
        if ok {
          SameAfter(g, now.st, stored, st, d, PutData(g, now, c));
        }
      }
    }

    /** The second part of write_to_log_block: the progressive merge, and the adjustment of its interval. */
    method FinishWrite(ghost now: Moment, ghost c: Command, random: bool, busy: bool) returns (ok: bool)
      requires Ready() && Shape(g, now.st) && IsPage(g, c.d) && c.Put? && pace == now.pace
      requires Now() == WithStream(g, now, c.d).(st := Stored(g, now, c.d, PutData(g, now, c)))
      requires (random <==> KindOf(g, now, c.d) == Random) && (busy <==> IsBusy(g, now, c.d))
      modifies this`st, this`pace, ring, ring.slots
      ensures ok <==> (Merges(g, now, c) ==> CanMerge(g, old(st)))
      ensures ok ==> Ready() && SameContent(g, old(st), st) && Blocks(g, st) == Blocks(g, old(st))
      ensures ok ==> Now() == Next(g, now, c)
    {
      pace := pace.(writes := pace.writes + 1);
      ghost var stored, p := st, pace;
      ok := MergeIfDue(random, busy);
      if ok {
        EndWrite(now, c, stored, p);
      }
    }

    /** The interval is adjusted last. */
    method EndWrite(ghost now: Moment, ghost c: Command, ghost stored: State, ghost p: Pace)
      requires Shape(g, now.st) && IsPage(g, c.d) && c.Put? && stored == Stored(g, now, c.d, PutData(g, now, c))
      requires p == now.pace.(writes := now.pace.writes + 1)
      requires Now() == WithStream(g, now, c.d).(st := st, pace := pace)
      requires var random, busy := KindOf(g, now, c.d) == Random, IsBusy(g, now, c.d);
        && st == (if !busy && IsDue(g, p, stored.isolFree, random) then FullyMerged(g, stored) else stored)
        && pace == if busy then p else Counted(g, p, stored.isolFree, random)
      modifies this`pace
      ensures Now() == Next(g, now, c)
    {
      NextIs(g, now, c, stored, p, st, pace);
      Tune();
    }

    /** The sectors to program: of a partial write, the rest comes from the newest copy of the page. */
    method Merged(d: Pg, offset: nat, sectors: seq<Sector>) returns (data: Data)
      requires Valid() && CommandOk(g, Put(d, offset, sectors))
      ensures data == Splice(g, Resolve(g, st, d), offset, sectors)
    {
      data := sectors;
      if |sectors| != g.sects {
        var src := GetVpn(d);
        data := Splice(g, Read(g, CellAt(st.flash, src.b, src.o)), offset, sectors);
      } else {
        assert data == Splice(g, Resolve(g, st, d), offset, sectors);
      }
    }

    /** ftl_read of one page. */
    method ReadPage(d: Pg) returns (data: Data)
      requires Valid() && IsPage(g, d)
      ensures data == Resolve(g, st, d)
    {
      var src := GetVpn(d);
      data := Read(g, CellAt(st.flash, src.b, src.o));
    }

    /** One host command. */
    method ServeOne(c: Command, ghost commands: seq<Command>, ghost i: nat) returns (ok: bool, answer: seq<Data>)
      requires Ready() && CommandOk(g, c) && i < |commands| && commands[i] == c && Holds(g, commands[..i], st)
      modifies this, ring, ring.slots
      ensures ok <==> Accepts(g, old(Now()), c)
      ensures ok ==> Ready() && Blocks(g, st) == Blocks(g, old(st)) && Now() == Next(g, old(Now()), c)
      ensures ok ==> Holds(g, commands[..i + 1], st)
      ensures ok ==> answer == if c.Get? then [After(g, commands[..i], c.d)] else []
    {
      ghost var was := st;
      match c {
        case Put(d, offset, sectors) =>
          answer := [];
          ok := Write(d, offset, sectors);
          if ok {
            PutHolds(g, commands, i, was, st);
          }
        case Get(d) =>
          ok := true;
          var data := ReadPage(d);
          answer := [data];
          GetHolds(g, commands, i, st);
      }
    }

    /** Any sequence of host commands: each page that is read holds what was last written. The run comes to the end
        exactly if each command is accepted at its moment. */
    method Serve(commands: seq<Command>) returns (ok: bool, answers: seq<Data>)
      requires Ready() && (forall d | IsPage(g, d) :: Resolve(g, st, d) == Blank(g))
      requires forall c <- commands :: CommandOk(g, c)
      modifies this, ring, ring.slots
      ensures ok <==> RunOf(g, old(Now()), commands).Some?
      ensures ok ==> Ready() && Blocks(g, st) == Blocks(g, old(st)) && RunOf(g, old(Now()), commands) == Some(Now())
      ensures ok ==> answers == Answers(g, commands)
      ensures ok ==> forall d | IsPage(g, d) :: Resolve(g, st, d) == After(g, commands, d)
    {
      ok, answers := true, [];
      assert commands[..0] == [];
      for i := 0 to |commands|
        invariant ok && Ready() && Blocks(g, st) == Blocks(g, old(st))
        invariant RunOf(g, old(Now()), commands[..i]) == Some(Now()) && Holds(g, commands[..i], st)
        invariant answers == Answers(g, commands[..i])
      {
        assert commands[..i + 1][..i] == commands[..i];
        var answer;
        ok, answer := ServeOne(commands[i], commands, i);
        if !ok {
          RunStops(g, old(Now()), commands, i + 1);
          return;
        }
        answers := answers + answer;
      }
      assert commands[..|commands|] == commands;
    }
  }
}
